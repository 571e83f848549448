# litedbmodel: what its hard parts promise, proved

This project models the parts of the litedbmodel data-access layer that are hard to get right and proves, in Dafny, what
they are for. `dafny verify dfyconfig.toml` checks all of it.

| module | models |
|---|---|
| `TransactionProtocol`, `TransactionOutcomes`, `TransactionLoop` | the retry loop of `DBModel.transaction` and its guard as a machine of interleaved steps against a server that may lose replies, abort a transaction or end it; what becomes of an attempt by how it failed; the loop itself as a `while (true)` method that is a run of that machine |
| `RelationBatch`, `RelationCache` | batched relation loading in its eight forms against one query per record; the cache of loads shared by concurrent readers |
| `SqlText`, `ConditionCompiler`, `ConditionLists` | SQL text as tokens with holes, a reader under SQL precedence that binds parameters to holes, three-valued truth; the condition compiler and its tokens; condition lists to records |
| `BoundPlaceholders`, `SpelledConditions` | the text as characters: how many of its `?` get no parameter, over every tree and every condition list; and the whole text and the parameters of every tree, template by template |
| `Statements`, `Placeholders`, `NumberedStatements` | SELECT, UPDATE, nested `sql` fragments, LATERAL and ROW_NUMBER statements with their parameter lists; `?` to `$1, $2, ...`; which statements are sent with `$k` for their k-th parameter |
| `SpelledStatements`, `StatementTruths` | the statements as characters with their parameters; what their WHERE clauses mean when they are read back |
| `KeyIdentity`, `RelationTree` | the Go grouping core: key cells with 64-bit floats, key tuples, pluck, fetch and group at any depth |
| `JsonText`, `ConformanceCodec` | a reader of RFC 8259 text, and the conformance codec's round trip through it |
| `ArrayLiteral`, `LikePattern` | PostgreSQL array literals and their casts; LIKE patterns for a literal text |
| `SkipBatching` | `_insert` grouping and the one statement of `updateMany` against row-by-row writes |
| `ColumnMetadata`, `RequestScope` | copy-on-inherit decorator metadata, and request scopes, both as objects in the heap |
| `Sequences`, `Decimal` | shared facts about sequences, joined text and decimal integers |

The style is the same throughout. A specification is a function or a relation that says what the result means: the rows
of one query per record, the truth of a condition tree, the nested loops. What the source does step by step, with loops,
buffers, maps and objects, is a method that is proved to compute it or to be a run of it. The main results are lemmas over
every input, every run or every interleaving.

Where a promise fails, the project says exactly when it holds: the lemmas whose names end in `Iff` state both directions,
and other lemmas give the failing inputs. In short:

- What `transaction` promises on a connection that the caller gave, with retries on, depends on what the server does with a
  BEGIN while a transaction is open: go on with it, commit it, or refuse. The model has all three. When the ROLLBACK between
  two attempts has no effect, a server that goes on commits the writes of both attempts as one (`SingleAttemptIff`,
  `WritesOfTwoAttempts`), and one that commits makes two commits, or one with rollbackOnly (`OneCommitIff`,
  `CommitsOfTwoAttempts`, `PreviewIsCommitted`). `CommittedExactlyIff` says for which options neither can happen.
- A server may end a transaction by itself at a failed statement, as MySQL does at a deadlock. A statement that takes effect
  after that on the same connection is durable at once and nothing takes it back: not ROLLBACK, not a retry, not rollbackOnly
  (`StrayIsDurable`, `WrittenTwice`). The promises about what is durable hold of a run exactly when there is no such statement
  (`CommittedExactly`, `StraysIff`), and a body that never has two queries in flight and starts none after a failed one has
  none (`CarefulNeverStrays`).
- `transaction` can return normally without having committed: exactly when a statement of the returning attempt made the
  server abort the transaction and the body swallowed the error (`ReturnedInVainIff`, `ReturnedInVain`).
- A batch load differs from loading record by record exactly when a key that the query can see a row of has the text of
  another key of the batch (`RefinesIffApart`, `RefinesIffNoCollision`): a null key and the text `null` have (`NullCollides`).
- A fragment in a condition list whose only parameter is null or a boolean keeps its placeholder and binds nothing, so that
  the parameters behind it move up; a lone array is spread. `FragmentKeptIff`, `TranslatesIff` and `OneParameterEachIff` give
  the exact conditions for one fragment and for a list, and `BooleanShiftsParameters` a family of lists that fail. A null on a
  column with an SQL type is compared with `=`, which is never true; `TranslatesIff` has that case too.
- An empty list under a key with one placeholder becomes `NULL` there, so that `NOT IN (?)` is true of no row
  (`CustomIsSpelled`).
- The default filter of a model is joined to the conditions of a find by their own operator, so that it restricts conditions
  joined by AND and widens those joined by OR (`SelectIsFiltered`).
- A relation's own condition on its target key takes the place of the key condition in the ROW_NUMBER form, and rows of any key
  are asked for; `KeyIsAskedIff` says that this is exactly when it happens.
- `DBConditions.add` ignores the operator that its documentation describes; the model follows the code
  (`AddIgnoresItsOperator`). Of two OR conditions in one list only the later one counts (`SecondOrReplacesFirst`).
- The grouped inserts of `_insert` write other rows than one insert per record exactly when two records with one pattern have
  different columns (`InsertsAreRowByRowIff`), as a comma in a column name makes them (`CommaIsWritten`).
- The one statement of `updateMany` leaves every table as updating record by record does exactly when records with one key,
  none of it null, set the same columns to the same values (`UpdateIsRowByRowIff`, `SameKeyDiffers`).
- A statement is sent with its k-th `?` numbered for its k-th parameter exactly when no name, type or text in it has a `?` of
  its own (`SelectIsBoundIff` and its like in `NumberedStatements`).
- The conformance codec loses exactly the values with an object whose only key is `$bigint` (`RoundTripIff`).
- Reading an array literal loses exactly the list of one empty string; the cast, which tries JSON first, also loses a list
  of one string of tabs and line ends (`LiteralRoundTripIff`, `StringsRoundTripIff`).
- A row that repeats a key column's name may be read differently by position and by name (`AgreeForAllPositionsIff`); a NUL in
  a text makes keys of three columns collide (`NulCollides`).
- A class misses exactly those registrations of its bases that come after some class between had registered (`SeenIff`), so
  every class sees everything exactly when bases are decorated first (`AllSeeAllIff`).

## Model

| member | source | states |
|---|---|---|
| TransactionProtocol.TransactionGuard.Run | src/connection-errors.ts:112-121 | a query starts, and is tracked from then on, exactly when the gate is open; otherwise nothing changes |
| TransactionProtocol.TransactionGuard.Finish | src/connection-errors.ts:103-110 | a query that ends is no longer tracked and the gate is untouched |
| TransactionProtocol.TransactionGuard.Settle | src/connection-errors.ts:129-131 | the gate closes before the pending queries are taken, and those taken are all that are unfinished |
| TransactionProtocol.InvRun | src/DBModel.ts:3164-3218 | the invariants of gate, loop and stored content survive every interleaving of starts, answers, errors, lost replies, rollbacks, retries and releases |
| TransactionProtocol.WireIsOrdered | src/connection-errors.ts:100-139 | in every run the monitor of the connection accepts what is sent: no stray query, no end with a query open |
| TransactionProtocol.NoQueryAfterEnd | src/connection-errors.ts:112-121 | on an accepted wire a query after an attempt's COMMIT or ROLLBACK belongs to a later attempt, so nothing left over reaches it |
| TransactionProtocol.AnsweredBeforeEnd | src/connection-errors.ts:122-137 | on an accepted wire every query sent before a COMMIT or ROLLBACK was answered before it |
| TransactionProtocol.AttemptsAreBounded | src/DBModel.ts:3204-3212 | no run has more than max(1, retryLimit) attempts |
| TransactionProtocol.ReleasedExactlyOnce | src/DBModel.ts:3215-3217 | when the loop has ended, by any path, each connection it took was released once and a given one never |
| TransactionProtocol.OneCommitAtMost | src/connection-errors.ts:33-41 | however replies to COMMIT are lost, what is durable is the statements that took effect after their transaction was ended, and then at most one unit, none with rollbackOnly; without such statements it is at most one commit; not if a BEGIN can commit what an earlier attempt left open |
| TransactionProtocol.OneCommitIff | src/DBModel.ts:3164-3218 | that holds in every run, and at most one commit in every run without such statements, exactly when the server does not commit at BEGIN or no connection is used for a second attempt |
| TransactionProtocol.CommitsOfTwoAttempts | src/DBModel.ts:3192-3212 | with a server that commits at BEGIN, a retry on a given connection makes the failed attempt's writes durable and then its own |
| TransactionProtocol.PreviewIsCommitted | src/DBModel.ts:3192-3212 | with such a server even rollbackOnly leaves the failed attempt's writes durable |
| TransactionProtocol.CommittedExactly | src/DBModel.ts:3177-3214 | when the catch block's ROLLBACK takes effect where a connection is used again: what is durable is nothing or exactly what the last attempt wrote, and a normal return means that it is durable exactly if nothing was aborted and rollbackOnly is off; this holds of a run exactly when no statement of an attempt takes effect after one that ended the attempt's transaction |
| TransactionProtocol.StraysIff | src/DBModel.ts:3172-3184 | something is durable outside any transaction exactly when a statement of an attempt took effect after one that ended its transaction, over all runs |
| TransactionProtocol.CarefulNeverStrays | src/connection-errors.ts:112-121 | a body that starts a query only when none is in flight and none has failed never has such a statement, whatever the server does |
| TransactionProtocol.StrayIsDurable | src/DBModel.ts:3174-3196 | with any options, rollbackOnly included: of two queries in flight the second is a deadlock that ends the transaction and the first is run after it, and is durable when the body has failed |
| TransactionProtocol.WrittenTwice | src/DBModel.ts:3192-3212 | when that deadlock is retried, on a pooled or a given connection and whatever becomes of ROLLBACK, the transaction returns with both attempts' writes durable |
| TransactionProtocol.CommittedExactlyIff | src/DBModel.ts:3164-3218 | whatever takes effect, that equivalence holds of every run exactly when no connection is used for a second attempt, or the server refuses BEGIN there, or goes on with the transaction and nothing is to be committed |
| TransactionProtocol.ReturnedInVainIff | src/DBModel.ts:3177-3191 | a normal return has committed nothing exactly when a statement that the returning attempt's body started made the server abort or end the transaction, and otherwise exactly that attempt's writes; all else that is durable are the statements that took effect after their transaction was ended |
| TransactionProtocol.ReturnedInVain | src/DBModel.ts:3177-3191 | it happens with all options but rollbackOnly: a statement aborts the transaction, the body swallows its error, COMMIT is answered, nothing is durable |
| TransactionProtocol.WritesOfTwoAttempts | src/DBModel.ts:3192-3212 | on a given connection with retries and a server that goes on with an open transaction at BEGIN, a ROLLBACK without effect leads to one commit with the writes of two attempts |
| TransactionProtocol.SingleAttemptIff | src/DBModel.ts:3165-3218 | no commit in any run holds writes of two attempts exactly when no given connection is retried on, or rollbackOnly is set, or the server does not go on with an open transaction at BEGIN |
| TransactionOutcomes.TrackedIff | src/connection-errors.ts:103-121 | over all runs the guard tracks exactly the queries that were started through its open gate and have not finished |
| TransactionOutcomes.LeftOpenIsRaised | src/connection-errors.ts:122-137 | if the body of an attempt settles with a query still open, then in every later run its COMMIT is not on the wire, no attempt follows, the loop does not return, and if it ends it ends in the guard's own error |
| TransactionOutcomes.FailedAttempt | src/DBModel.ts:3192-3217 | an attempt that failed at BEGIN, with its body, at ROLLBACK or at COMMIT, over every later run: no COMMIT follows, another attempt follows only if retries are on and left and the error is a lost lock, or a lost connection that was neither given nor at COMMIT; otherwise that very error is raised; and a pooled connection is destroyed |
| TransactionOutcomes.GoodConnectionIsKept | src/DBModel.ts:3215-3217 | a connection whose COMMIT or final ROLLBACK was answered goes back idle and alive |
| TransactionOutcomes.CommitSentIff | src/DBModel.ts:3177-3191 | when an attempt's queries are answered, its COMMIT has been sent exactly if its body returned with no query left open and rollbackOnly is off |
| TransactionLoop.Transaction | src/DBModel.ts:3162-3219 | the loop, whatever it is answered and whatever happens meanwhile, ends and is a run of the machine, so every promise above holds of it; if the body of an attempt left a query open, it ends in the guard's own error |
| TransactionLoop.SettleBody | src/connection-errors.ts:122-137 | what the body settles to is the guard's own error exactly if a query that was started had not finished then, and otherwise its outcome; then the error is caught or COMMIT (ROLLBACK with rollbackOnly) is next, as a run of the machine |
| TransactionLoop.TryCommit | src/DBModel.ts:3186-3191 | COMMIT is sent with the committing flag up and ends in a return or in the catch with that flag |
| TransactionLoop.HoldsOfTheRun | src/DBModel.ts:3164-3218 | every ended run keeps all promises: bounded attempts, one release each, ordered wire, and, unless BEGIN can commit, at most one commit beside the statements that took effect after their transaction was ended |
| TransactionLoop.AcquiredConnection.Release | src/DBModel.ts:3246-3254 | the first release frees the slot with its own argument; later ones change nothing |
| TransactionLoop.ReleaseAll | src/DBModel.ts:3246-3254 | however often release is called, with whatever arguments, the slot is freed once, by the first |
| RelationBatch.UniqueKeys | src/LazyRelation.ts:722-738 | the deduplicated keys: each identity once, in order of first occurrence, none lost |
| RelationBatch.BuildRelationMap | src/LazyRelation.ts:304-325 | the map holds, under each key text, all rows filed under it in order, or the last of them for a single relation, and nothing else |
| RelationBatch.BatchLoad | src/LazyRelation.ts:210-325 | a limited relation never throws; another throws, by its hard limit: above the global limit if it has none of its own, never if it is null, above its own otherwise; with that limit and one more row in the error; and otherwise files exactly the rows of the batch |
| RelationBatch.GetRelation | src/LazyRelation.ts:130-171 | from records to answer: the same with apart keys for the rows of the table that any record wants, counted once each; and otherwise it answers as a query for that record alone |
| RelationBatch.AloneMeans | src/LazyRelation.ts:153-163 | what a query for one record answers, column by column: the rows whose target columns equal its source columns, none missing or null, under the relation's conditions and, unless limited, the default filter, in order; the first N with a limit; the last one for belongsTo and hasOne |
| RelationBatch.AnyIsWanted | src/DBModel.ts:988-1045 | the rows that the cap counts are those of the table that some record wants in that sense, each once |
| RelationBatch.BatchRefinesAlone | src/LazyRelation.ts:130-171 | when no key that the query can see a row of has the text of another, what a record gets from the batch is what a query for it alone gives: all matches in order, the last one, none for a null key, the first N with a limit |
| RelationBatch.CapCountsMatches | src/DBModel.ts:988-1045 | without a limit the rows of the batch are the rows matching any of its records, each once, when its keys are apart |
| RelationBatch.RefinesIffApart | src/LazyRelation.ts:130-171 | for every kind, limit above zero and filters: the batch agrees with loading one by one on every table exactly when no key that the query can see a row of has the text of another key of the batch |
| RelationBatch.RefinesIffNoCollision | src/LazyRelation.ts:688-716 | without filters that is exactly when no two different keys of the batch have one text |
| RelationBatch.TypedKeysDoNotCollide | src/LazyRelation.ts:704-716 | integer keys and NUL-free texts never collide, single or composite |
| RelationBatch.NullCollides | src/LazyRelation.ts:153-163 | a null key and the text null collide |
| RelationBatch.AbsentCollides | src/LazyRelation.ts:153-163 | so do a missing key and the text undefined |
| RelationBatch.UnnestJoinIff | src/LazyRelation.ts:361-405 | joining with unnested keys gives on every table each matching row once exactly when the keys are distinct |
| RelationBatch.LateralOf | src/LazyRelation.ts:480-572 | LATERAL yields a key's first N rows as many times as the key was sent, so deduplication is what prevents copies |
| RelationBatch.RankedOf | src/LazyRelation.ts:590-683 | ROW_NUMBER yields for each key sent its first N rows, once, however often it was sent |
| RelationBatch.FetchOf | src/LazyRelation.ts:250-302 | in every one of the eight forms a key gets exactly its own rows, or the first N of them |
| RelationBatch.LateralIsRowNumber | src/LazyRelation.ts:480-683 | both limited forms give the same relation map: each distinct key's first N rows and nothing under other texts |
| RelationCache.BatchCache.Access | src/LazyRelation.ts:137-149 | an access waits for the load that is held and starts one only if there is none |
| RelationCache.BatchCache.Catch | src/LazyRelation.ts:143-146 | a failure drops its own load only if that is still held |
| RelationCache.BatchCache.ClearCache | src/LazyRelation.ts:191-193 | no load is held any more; those under way go on |
| RelationCache.StaleFailureKeeps | src/LazyRelation.ts:143-146 | over any run, failures of other loads, whenever they are caught, never take away the load that is held |
| RelationCache.DroppedForGood | src/LazyRelation.ts:137-149 | a load that was dropped is never held again |
| RelationCache.SharedUntilDropped | src/LazyRelation.ts:137-149 | two accesses share one load exactly when it was not dropped between them, in every interleaving |
| RelationCache.FailedLoadIsEvicted | src/LazyRelation.ts:137-147 | once its failure was caught, a load is given to no later access of any relation in any run |
| RelationCache.LoadsAreCounted | src/LazyRelation.ts:137-193 | over every run a relation was loaded exactly once for the load that is held, if one is, and once for each that was held and dropped |
| RelationCache.CompletedIsKept | src/LazyRelation.ts:137-147 | a load that completed is held until the cache is cleared |
| SqlText.PrimRead | src/DBConditions.ts:94-206 | reading the text of one condition under SQL precedence and binding its parameters gives the condition back |
| SqlText.DisjRead | src/DBConditions.ts:63-89 | reading an OR of ANDs gives it back, whatever follows in the text and in the parameter list |
| ConditionCompiler.TokenMeans | src/DBValues.ts:82-494 | what a token compiles to has the token's own three-valued truth on every row, subqueries included |
| ConditionCompiler.ConditionsMean | src/DBConditions.ts:63-206 | a compiled tree whose keys and values fit is empty exactly when the tree says nothing and otherwise has its three-valued truth on every row |
| ConditionCompiler.CompiledMeans | src/DBConditions.ts:63-206 | the text of such a tree, read back under precedence with its parameters bound in order, has the truth of the tree on every row and leaves no token or parameter over |
| ConditionCompiler.Compile | src/DBConditions.ts:63-89 | the returned text is that of the tree, null and boolean values under any key included, and exactly the parameters that it binds, in order, are appended to the caller's list |
| SpelledConditions.TokenIsSpelled | src/DBValues.ts:40-500 | each token is written as its template says, character by character, TRUE for true and FALSE for false, with a cast exactly where the driver writes one, and binds exactly its values in order |
| SpelledConditions.TreeIsSpelled | src/DBConditions.ts:63-243 | the text that compile returns for any tree and the parameters that it pushes, branch by branch: special keys, null, booleans, lists, expressions, groups in parentheses, joined by the operator of the object |
| StatementTruths.BooleanIsCompared | src/DBConditions.ts:164-172 | on a database whose literals mean what they say, a boolean entry read back compares its column with that boolean, and a true one whose key has a space is that expression |
| StatementTruths.BoolTokenIsCompared | src/DBValues.ts:170-174 | so does a boolean token |
| StatementTruths.BooleanColumnIsCompared | src/Column.ts:972-1019 | and a boolean on a column of a condition list, cast where the column and the driver have a cast |
| ConditionCompiler.CompileCondition | src/DBConditions.ts:94-206 | the branches on key and value, null and boolean before all others, give the text of the entry and push exactly the parameters that it binds |
| ConditionCompiler.CompileGroups | src/DBConditions.ts:100-114 | OR groups: empty ones dropped, the rest in parentheses, parameters in the order of the text |
| ConditionCompiler.CompileCustom | src/DBConditions.ts:212-243 | it counts the key's placeholders, expands a lone one to one for each value, writes NULL for no values, and pushes the values in order |
| BoundPlaceholders.CustomIsSpelled | src/DBConditions.ts:212-243 | as characters the text is the key with its lone `?` expanded to one for each value, or replaced by NULL, or the key unchanged |
| BoundPlaceholders.UnboundPlaceholders | src/DBConditions.ts:63-206 | the text of a tree has exactly as many `?` more than parameters as stand in keys of null, boolean and token values and in raw texts |
| BoundPlaceholders.OneParameterEachIff | src/Column.ts:1030-1073 | the text of a condition list has one parameter for each `?` exactly when no fragment, at any depth, has null or a boolean for its only parameter and no text with a placeholder is paired with one; otherwise one `?` is left for each |
| BoundPlaceholders.FragmentKeptIff | src/Column.ts:1030-1042 | a fragment reaches the statement as written, with its own parameters, exactly when its only parameter is not null, a boolean or an array and, without parameters, when it has a space |
| BoundPlaceholders.BooleanShiftsParameters | src/DBConditions.ts:165-171 | after a fragment whose only parameter is a boolean, the next fragment's parameter is the first in the list while the boolean's `?` is the first in the text |
| ConditionCompiler.CompileIn | src/DBValues.ts:196-212 | one hole per value, pushed in order, and a condition that is never true for no values |
| ConditionCompiler.CompileTuples | src/DBValues.ts:313-328 | one hole per cell in row order, and a condition that is never true for no tuples |
| ConditionCompiler.CompileSubquery | src/DBValues.ts:703-746 | IN and NOT IN over a subquery with its own conditions, parameters in text order |
| ConditionCompiler.CompileExists | src/DBValues.ts:785-820 | EXISTS and NOT EXISTS with their conditions, parameters in text order |
| ConditionCompiler.ConditionBuilder.Add | src/DBConditions.ts:44-55 | the nested conditions are appended to the field and nothing else changes |
| ConditionCompiler.AddIgnoresItsOperator | src/DBConditions.ts:44-89 | the operator given to add makes no difference to the text |
| ConditionLists.CondsToRecord | src/Column.ts:1044-1073 | the loop gives the record of the list, a later element replacing an earlier one of its key |
| ConditionLists.RecordKeepsAllIffDistinct | src/Column.ts:1044-1073 | the record holds every element exactly when their keys are distinct |
| ConditionLists.RecordIsConjunction | src/Column.ts:1044-1073 | with distinct keys and elements that translate, the record is true on a row exactly as the conjunction of the elements, each by its own meaning: a fragment with one value per placeholder, a column equal, among or null, an OR of its groups |
| ConditionLists.TranslatesIff | src/Column.ts:972-1042 | an element, or an OR of one element, keeps its own meaning in every database and on every row exactly when it is no fragment with a lone null, boolean or array, no text with a placeholder paired with null or a boolean, no text alone without a space, and no null on a column with a cast |
| ConditionLists.TwinInOr | src/Column.ts:1044-1073 | in an OR of more that is not needed: of two equal elements of a group one is lost and the OR means the same |
| ConditionLists.SecondOrReplacesFirst | src/Column.ts:1055-1057 | of two OR elements the earlier one is lost |
| Statements.ProcessInterpolation | src/SqlFragment.ts:190-226 | an interpolated value becomes its text and pushes exactly the parameters of its holes |
| Statements.Template | src/SqlFragment.ts:285-351 | nested fragments flatten into the outer one and each hole stands at its parameter |
| SpelledStatements.TemplateIsSpelled | src/SqlFragment.ts:190-351 | the text of a template character by character, each kind of value as its kind is written, and its parameters in order |
| Statements.BuildSelect | src/DBModel.ts:752-851 | over CTE, model query, JOIN and WHERE the k-th hole is meant for the k-th parameter |
| StatementTruths.SelectIsFiltered | src/DBModel.ts:785-793 | the WHERE of a model's SELECT, read back with the last parameters of the list, is on every row the conditions and the model's filter, each by its own meaning, joined by AND, or by OR if the condition object joins by OR; one that says nothing leaves the other |
| StatementTruths.FilterAgain | src/DBModel.ts:785-789 | the filter is added to the caller's own object; passing that object again means the same |
| SpelledStatements.SelectIsSpelled | src/DBModel.ts:795-851 | the SELECT as it is sent, character by character, and its parameters: WITH, columns, table, JOIN, WHERE if there are conditions or a filter that say something, tail |
| Statements.BuildPlainSelect | src/DBModel.ts:862-925 | the same for the statement that appends to a list already in use |
| Statements.BuildUpdate | src/DBModel.ts:1288-1345 | SET before WHERE in text and parameters; nothing to set sends nothing; no condition is an error |
| SpelledStatements.SetIsSpelled | src/DBModel.ts:1300-1325 | each value in a SET clause as it is written, a boolean as its literal, and what it binds |
| SpelledStatements.UpdateIsSpelled | src/DBModel.ts:1288-1345 | the UPDATE as it is sent, and its parameters in the order of the text |
| Statements.Lateral | src/LazyRelation.ts:480-572 | key arrays before the inner query's conditions, in text and parameters |
| Statements.RowNumber | src/LazyRelation.ts:590-628 | the key condition leads the record and its parameters lead the list |
| Statements.RowNumberComposite | src/LazyRelation.ts:633-683 | the list is seeded with the key tuples before the conditions are compiled, which matches the text |
| StatementTruths.CompositeKeysAreAsked | src/LazyRelation.ts:645-668 | its inner WHERE, read back, is on every row that the tuple is among those sent and that the conditions hold |
| StatementTruths.LateralKeysAreAsked | src/LazyRelation.ts:493-507 | the same for LATERAL, with the join text |
| StatementTruths.RankedKeysAreAsked | src/LazyRelation.ts:600-614 | the same for ROW_NUMBER with a single key that no condition of the relation is on |
| StatementTruths.KeyIsAskedIff | src/LazyRelation.ts:602-605 | the key condition is in the record exactly if no condition that is spread after it has its key, or is the same |
| SpelledStatements.LateralIsSpelled | src/LazyRelation.ts:510-515 | LATERAL around the inner query, as it is sent |
| SpelledStatements.RankedIsSpelled | src/LazyRelation.ts:616-628 | ROW_NUMBER around the inner query, as it is sent |
| Statements.Transpose | src/LazyRelation.ts:532-542 | the r-th elements of the column arrays are the r-th key tuple |
| Placeholders.ToDollarPlaceholders | go/litedbmodel_runtime/dialect.go:45-57 | the loop numbers the placeholders of the text from one |
| Placeholders.NumberedInOrder | go/litedbmodel_runtime/dialect.go:45-57 | the stretches between placeholders stay untouched and $1, $2, ... stand between them in order |
| Placeholders.HolesAreNumbered | go/litedbmodel_runtime/dialect.go:45-57 | on a statement whose only `?` are its holes the k-th hole becomes $k, the place of the k-th parameter |
| NumberedStatements.SelectIsBoundIff | src/DBModel.ts:752-851 | the SELECT of a model is sent with its k-th `?` numbered $k and standing for its k-th parameter exactly when its names, the text of its CTEs, JOIN and tail, and its conditions have no `?` of their own |
| NumberedStatements.LateralIsBoundIff | src/LazyRelation.ts:480-572 | the same for LATERAL, exactly when table, key types, join text, tail and conditions have none |
| NumberedStatements.CompositeIsBoundIff | src/LazyRelation.ts:633-683 | the same for ROW_NUMBER with composite keys, exactly when table, key columns, select list, limit and conditions have none |
| NumberedStatements.RankedIsBoundIff | src/LazyRelation.ts:590-628 | the same for ROW_NUMBER with a single key, whose condition is one of the conditions |
| NumberedStatements.UpdateIsBoundIff | src/DBModel.ts:1288-1345 | the same for UPDATE, exactly when table, columns, set tokens, types and conditions have none |
| KeyIdentity.IdentityOf | go/litedbmodel_runtime/grouping.go:92-106 | one and two cells inline, any other number joined with NUL |
| KeyIdentity.TextCell | go/litedbmodel_runtime/grouping.go:225-232 | a text becomes the integer n exactly when it is the canonical decimal form of that int64, and is itself otherwise |
| KeyIdentity.WholeIsTheNumber | go/litedbmodel_runtime/leaf_transport.go:769-787 | a double is taken for the integer v exactly when v is its value |
| KeyIdentity.FieldsSay | go/litedbmodel_runtime/leaf_transport.go:769-787 | which integer a double stands for, by its sign, biased exponent and fraction, as the 64-bit format of IEEE 754 says |
| KeyIdentity.OneWayToWrite | go/litedbmodel_runtime/leaf_transport.go:783-786 | finite nonzero doubles of one value have one bit pattern, so comparing bits compares values |
| KeyIdentity.SameCellIff | go/litedbmodel_runtime/leaf_transport.go:765-798 | two cells get one key cell exactly when they agree: one integer however carried, or the same float, text or flag |
| KeyIdentity.SameKeyIff | go/litedbmodel_runtime/grouping.go:92-106 | key tuples of any width have one identity exactly when they agree column by column (one of two wide tuples has no NUL) |
| KeyIdentity.NulCollides | go/litedbmodel_runtime/grouping.go:27-31 | with NUL in a text, a family of different three-column keys shares identities |
| RelationTree.ResolveKeyIndices | go/litedbmodel_runtime/grouping.go:113-133 | each column's first position in the first record, or absent |
| RelationTree.KeyCells | go/litedbmodel_runtime/grouping.go:140-163 | the key by position with fallback on the name; nothing when a column is absent or null |
| RelationTree.PositionAgreesWithName | go/litedbmodel_runtime/grouping.go:135-160 | by position and by name agree on every row that has its key columns once, for positions from any sample and any column order |
| RelationTree.SameColumnsAgree | go/litedbmodel_runtime/grouping.go:108-133 | they agree on rows with the sample's columns even if a name is repeated |
| RelationTree.AgreeForAllPositionsIff | go/litedbmodel_runtime/grouping.go:135-160 | for one key column they agree for all positions exactly when the cells of that name are the same |
| RelationTree.DedupeKeyTuples | go/litedbmodel_runtime/grouping.go:168-185 | the keys of the rows, each identity where it first occurs |
| RelationTree.EachOnce | go/litedbmodel_runtime/grouping.go:168-185 | no two deduplicated keys have one identity |
| RelationTree.GroupByKey | go/litedbmodel_runtime/grouping.go:189-201 | every bucket holds exactly the children of its identity in input order |
| RelationTree.GroupChildren | go/litedbmodel_runtime/leaf_transport.go:668-706 | each row parent gets its bucket under the field, in place or at the end; other values pass through |
| RelationTree.SetOwnKey | go/litedbmodel_runtime/leaf_transport.go:712-723 | the field is overwritten where it is, or appended |
| RelationTree.PluckKeys | go/litedbmodel_runtime/leaf_transport.go:637-656 | the deduplicated keys, flat for one column and as lists for more |
| RelationTree.GroupIsNestedLoop | go/litedbmodel_runtime/grouping.go:187-219 | grouping gives each parent the children of a nested-loop join by agreeing keys, in order; the first or null when single |
| RelationTree.FetchIsEnough | go/litedbmodel_runtime/leaf_transport.go:622-651 | fetching by the plucked keys, with whatever else the database lets through, loses no child and changes no group |
| RelationTree.NestedKeepsKeys | go/litedbmodel_runtime/leaf_transport.go:712-723 | nesting relations into a row leaves its key columns alone |
| RelationTree.TreeIsNestedLoops | go/litedbmodel_runtime/grouping.go:113-219 | for trees of any depth and width, level-by-level loading with bottom-up grouping equals the nested loops |
| RelationTree.KeyIs | go/litedbmodel_runtime/grouping.go:140-163 | a row's key is made of the first values of its key columns, in their order, and there is one exactly if none is absent or null |
| RelationTree.NestedHolds | go/litedbmodel_runtime/leaf_transport.go:668-723 | every relation stands in its own field of a row of the tree: the children that belong to it, completed, in order, or with a single relation the first of them, or null |
| RelationTree.NestedOthers | go/litedbmodel_runtime/leaf_transport.go:712-723 | every other field is as it was |
| JsonText.ReadsQuoted | go/conformance/codec.go:131-166 | every string comes back from its escaped literal, control characters included (section 7 of RFC 8259) |
| JsonText.ReadsPrinted | go/conformance/codec.go:89-119 | reading printed JSON gives the value back whatever follows it |
| JsonText.ParsesPrinted | go/conformance/codec.go:89-119 | the whole text of a well-formed value parses as that value (sections 2 to 7 of RFC 8259) |
| ConformanceCodec.EscapeString | go/conformance/codec.go:131-166 | the loop with its padded `\u` escapes writes the string's literal |
| ConformanceCodec.Encode | go/conformance/codec.go:89-119 | the text is that of the JSON value that stands for the encoded value, at every depth |
| ConformanceCodec.EncodedIs | go/conformance/codec.go:89-119 | the text of every value, kind by kind with its literals, lists and objects in their order |
| ConformanceCodec.EscapesAre | go/conformance/codec.go:135-163 | each short escape, the long one for other control characters, and nothing else is escaped |
| ConformanceCodec.Decode | go/conformance/codec.go:29-73 | the decoded value, the first error stopping it: a tag that is no string or no int64 |
| ConformanceCodec.FloatsAreExact | go/conformance/codec.go:77-83 | the integer that a whole float prints as reads back as that float |
| ConformanceCodec.RoundsToNearest | go/conformance/codec.go:77-83 | no float is nearer to a whole number than what it is read as |
| ConformanceCodec.HalvesToEven | go/conformance/codec.go:77-83 | and half-way between two it is the even one |
| ConformanceCodec.RoundedIsFloat | go/conformance/codec.go:77-83 | and what it is read as is always a float |
| ConformanceCodec.TagIsWritten | go/conformance/codec.go:89-101 | an integer is written as an object whose one key is `$bigint` and whose value is its decimal text |
| ConformanceCodec.DecodesIff | go/conformance/codec.go:29-73 | decoding undoes encoding exactly when no object has the tag as its only key |
| ConformanceCodec.RoundTripIff | go/conformance/codec.go:29-166 | encoding to text, parsing as JSON and decoding gives the value back exactly when no object, at any depth, has the tag as its only key |
| ConformanceCodec.TagCollides | go/conformance/codec.go:49-60 | an object with a decimal text under the tag comes back as an integer |
| ArrayLiteral.ParsePostgresArray | src/TypeCast.ts:182-230 | the character loop over current, inQuotes, escaped and result computes the scan of the literal |
| ArrayLiteral.ScanEscaped | src/TypeCast.ts:197-223 | escaped text is read back as it was, inside quotes or without commas |
| ArrayLiteral.LiteralRoundTripIff | src/TypeCast.ts:182-230 | parsing undoes writing for every list of strings but the one of a single empty string |
| ArrayLiteral.LiteralAsJson | src/TypeCast.ts:117-129 | a written literal is JSON only when nothing but tabs and line ends is between its braces, and then an empty object |
| ArrayLiteral.StringsRoundTripIff | src/decorators.ts:502-526 | through the cast every list of strings returns except one string that is empty or only tabs and line ends |
| ArrayLiteral.BooleansRoundTrip | src/decorators.ts:532-544 | through the cast every list of true, false and null returns |
| ArrayLiteral.BooleanIff | src/TypeCast.ts:47-57 | which texts are true and which are false, in letters of either case; any other text is neither |
| ArrayLiteral.JsonIsTaken | src/TypeCast.ts:117-165 | the text of a JSON array is taken element by element, and that of any other JSON value for an empty list |
| LikePattern.MadeIsPattern | src/DBModel.ts:2265-2274 | the pattern never has a dangling or needless escape |
| LikePattern.LikeIff | src/DBModel.ts:2265-2274 | the pattern matches a text exactly when the source is a part, prefix, suffix or the whole of it, as the flags ask, for every source |
| SkipBatching.GroupByPattern | src/DBModel.ts:1137-1184 | one group per column pattern in order of first occurrence, with its records and raw records in input order, on both paths; and when patterns tell columns, the rows of the groups are one for each record, holding in each column what its serializer makes of the value given, or the value |
| SkipBatching.SerializedIs | src/decorators.ts:1640-1664 | a serialized record has the columns of the raw one in the same order, and in each what the column's serializer makes of the value, or the value |
| SkipBatching.GroupsWriteEach | src/DBModel.ts:1135-1184 | the groups write one row for each record, with those values and no others |
| SkipBatching.ColumnsAre | src/DBModel.ts:1146-1175 | a record is sent with exactly the columns it has a value for, sorted and once each |
| SkipBatching.SameColumnsSamePattern | src/DBModel.ts:1175-1180 | records with the same columns in any order share their group |
| SkipBatching.PatternTellsColumns | src/DBModel.ts:1175-1180 | with non-empty names without commas one pattern means one list of columns |
| SkipBatching.CommaConfuses | src/DBModel.ts:1175-1176 | with a comma in a name two patterns collide |
| SkipBatching.EachInOneGroup | src/DBModel.ts:1164-1184 | every record is in exactly one group |
| SkipBatching.GroupIsPaired | src/DBModel.ts:1178-1183 | raw and serialized records stay paired and, when patterns tell columns, each has exactly its group's columns |
| SkipBatching.InsertsAreRowByRowIff | src/DBModel.ts:1248-1281 | the grouped inserts write the same multiset of rows as one insert per record exactly when records that share a pattern have the same columns |
| SkipBatching.WellNamedApart | src/DBModel.ts:1175-1180 | with non-empty names without commas records that share a pattern have the same columns, so that the promise is kept |
| SkipBatching.CommaIsWritten | src/DBModel.ts:1175-1184 | for every two names, a column named by both with a comma between makes the written rows differ from one insert per record |
| SkipBatching.PairsToRecord | src/Column.ts:813-823 | the loop gives the record of the pairs without SKIP |
| SkipBatching.RecordedHas | src/Column.ts:813-823 | the record has a column exactly when some pair gives it a value |
| SkipBatching.RecordedLast | src/Column.ts:813-823 | and it has the last value given |
| SkipBatching.UpdateMany | src/DBModel.ts:2825-2907 | nothing to do exactly without value columns, a missing key named in order, otherwise union columns sorted and flags for exactly what each record lacks |
| SkipBatching.UpdateIsRowByRowIff | src/DBModel.ts:2878-2907 | on every row of every table the one flagged statement has exactly the outcome of updating record by record, exactly when records with one key, none of it null, set the same columns to the same values |
| SkipBatching.StatementIsRowByRow | src/DBModel.ts:2878-2907 | in particular with distinct keys |
| SkipBatching.NothingIsRowByRow | src/DBModel.ts:2843-2860 | when nothing is sent, updating record by record would change nothing either |
| SkipBatching.SameKeyDiffers | src/DBModel.ts:2898-2907 | for any two records with one key that differ in what they set in a column there is a row that the statement may leave otherwise than record by record does |
| ColumnMetadata.Table.Put | src/decorators.ts:310-324 | a column is set in its place or appended, a relation is appended |
| ColumnMetadata.Registry.Declare | src/decorators.ts:256-263 | a declared class has no metadata of its own and changes no other class's |
| ColumnMetadata.Registry.Inherited | src/decorators.ts:256-263 | the walk along the bases finds the nearest metadata, or none |
| ColumnMetadata.Registry.TableFor | src/decorators.ts:256-290 | the class's own table, or a new one of its own copied from what it inherits; no other class's table is touched |
| ColumnMetadata.Registry.Register | src/decorators.ts:310-324 | the whole state after a registration: the owner's own table grows from what it saw, every other own table is the same |
| ColumnMetadata.Registry.RegisterAll | src/decorators.ts:256-324 | a sequence of registrations on real tables is the run of the specification, so nothing is shared |
| ColumnMetadata.RegistrationIsLocal | src/decorators.ts:248-255 | a registration is not seen by bases, siblings, or any class with metadata of its own |
| ColumnMetadata.SeesInheritedAndOwn | src/decorators.ts:256-290 | for every forest and order with bases first, each class sees what it inherits overlaid with its own registrations |
| ColumnMetadata.EveryOrder | src/decorators.ts:256-290 | for every forest and every order, a class sees its own registrations over what its base saw when the class first registered |
| ColumnMetadata.SeesLast | src/decorators.ts:256-324 | for every order, a class sees each column property once, with the metadata of the last registration of it that reaches the class, and all relations that reach it in the order of their registration |
| ColumnMetadata.SeenIff | src/decorators.ts:256-290 | for every order, a property is there exactly when it was registered on the class or on a base before any class between, the class included, had registered |
| ColumnMetadata.LateBase | src/decorators.ts:256-263 | in any run that registers each property once, a registration on a base after the first on the class is missed by the class |
| ColumnMetadata.AllSeeAllIff | src/decorators.ts:256-290 | with properties registered once, every class sees all it inherits exactly when bases come before the classes that inherit from them |
| RequestScope.GetCurrentContext | src/Middleware.ts:143-152 | the instance held, else a new one that the scope then holds; outside any scope always a new one |
| RequestScope.OpenScope | src/Middleware.ts:161-169 | a new request with nothing, or a copy of the enclosing instances without X and with the same commits object |
| RequestScope.HasIff | src/Middleware.ts:174-176 | whatever any request does, hasContext is true exactly if the class was accessed in that scope and not cleared there since, or was held at the start and not cleared |
| RequestScope.HasSinceOpening | src/Middleware.ts:161-176 | in the scope that X.run opens it is false for X until X is accessed there, and for another class true from the start exactly if the enclosing scope held it then |
| RequestScope.Server.DoHas | src/Middleware.ts:174-176 | on real objects it answers what the world says and changes nothing |
| RequestScope.ClearContext | src/Middleware.ts:181-183 | exactly the one instance is dropped |
| RequestScope.Server.DoGet | src/Middleware.ts:143-152 | on real objects an access changes the world as specified and returns the instance seen |
| RequestScope.Server.DoOpen | src/Middleware.ts:161-169 | on real objects a run changes the world as specified |
| RequestScope.Server.DoClear | src/Middleware.ts:181-183 | on real objects a clear changes the world as specified |
| RequestScope.Server.DoCommit | src/RequestScope.ts:11-17 | on real objects a commit is noted in the request's shared record |
| RequestScope.LastCommitIsKept | src/RequestScope.ts:11-17 | after any run of any requests, a request's record has for every clock the last time noted in any of its scopes, and otherwise what it had |
| RequestScope.OthersChangeNothing | src/Middleware.ts:154-169 | however steps interleave, what other requests do changes no scope, instance or commit of a request |
| RequestScope.RequestsShareNothing | src/Middleware.ts:154-169 | in every run from the start no instance is held by two requests |
| RequestScope.SameUntilCleared | src/Middleware.ts:138-152 | a scope goes on seeing its instance exactly until it is cleared there, and never sees it again after that |
| RequestScope.SharedExceptX | src/Middleware.ts:154-169 | over any later run inner and enclosing scope share the other instances and the commits and never X |
| RequestScope.OutsideIsFresh | src/Middleware.ts:138-152 | outside a scope an access changes no scope and gives an instance that no scope holds and no access sees in any later run |

## Left out

Transactions:

- The SCP route of `transaction`, `execute`, `_insert` and `acquireConnection`, the sleep times, writer stickiness and the nested call (which only runs its function) are not part of this model.
- Error texts: an error is a kind (connection, abort, other); how message texts map to kinds is not modelled.
- The guarded `release` passes through to the connection; the model assumes that the body does not call it.
- CommittedExactly: assumes that on a reused given connection the ROLLBACK in the catch runs on the server, unless the server refuses BEGIN there; `CommittedExactlyIff` says for which options that is needed.
- OneCommitAtMost: not for a server that commits at BEGIN on a reused connection; `OneCommitIff` shows that it is false there. What a statement does to its transaction is a step of the world, whatever the server.
- WritesOfTwoAttempts: for a server that goes on with the open transaction, as PostgreSQL does; `CommitsOfTwoAttempts` is the run for one that commits it, as MySQL does, and a server that refuses, as SQLite does, has neither.
- The kind of server is an option of the machine; that a given driver has that kind is an assumption about the driver.
- OneCommitAtMost: a driver rejects COMMIT with an `Error`; a thrown value of another kind at COMMIT, which src/connection-errors.ts:33-41 does not recognise as a connection error, is not modelled.
- HoldsOfTheRun: leaves a BEGIN that can commit to `OneCommitIff`.
- A statement of the body is a query; a BEGIN or COMMIT that the body sends itself is not modelled. JavaScript promises and the event loop are the steps of the machine.

Relations:

- Object-valued keys, the JSON form of the dedupe, prefetch of instances and the per-record cap check of the single-record path are easy members.
- Rows come back in one result order of the table; databases that reorder equal rows between queries are not modelled.
- BatchRefinesAlone: for key lists without text collisions; `RefinesIffApart` shows that this is exactly what is needed.
- RefinesIffApart: a limit of zero, with which no row is ever delivered, is left out.
- RelationBatch: key lists of one column, for which src/LazyRelation.ts:150 and 215 differ; src/DBModel.ts:1979-1985 turns them into single keys before.
- RelationBatch: a relation whose own conditions are on its target key, or bring a `__raw__`, replaces the key condition or is replaced by it, form by form; `KeyIsAskedIff` is about the ROW_NUMBER form, and the other forms are left out.
- LateralIsRowNumber: the ranked form emits rows in the order of the window.

Conditions and statements:

- Condition objects are values; a fragment written by the user is an opaque text with holes and no OR at its top level.
- CompiledMeans: a null or boolean under a key with placeholders leaves text that SQL reads with other parameters, and a nested value that says nothing leaves none; both are outside its condition on the input. `UnboundPlaceholders` counts the first for every tree.
- Compile: a key whose placeholders are several and not as many as its values, and a `RAW` or function text whose placeholders are not as many as its parameters, are the caller's error and outside its condition on the input.
- TranslatesIff: an OR of several elements keeps its meaning when its groups do (`RecordIsConjunction`); that is not needed, since what is lost in it may do no harm (`TwinInOr`), and no condition on its elements one by one decides it.
- A wrapper token as a fragment's only parameter behaves as a pair with that token; it is counted as such.
- Column serializers in conditions are taken as the identity.
- HolesAreNumbered: `?` inside a literal would be numbered too, so the text must have no `?` but its holes; `NumberedStatements` says for each builder when it has not.
- INSERT text, ORDER BY with nulls and the SQL builders of the drivers would only add easy members.

Keys, trees and codecs:

- KeyIdentity.SameKeyIff: of two keys with three or more columns one has no NUL in its texts, as PostgreSQL texts have none; `NulCollides` gives the failing family.
- The child query returns at least the rows whose keys agree with a key sent; more rows are allowed, and its order is that of the table.
- Payload parsing errors of the leaf ports, and the mapping of rows to generated structs, are not part of this model.
- ConformanceCodec.RoundTripIff: whole floats are within 64 bits, negative zero is zero, and a fraction is its shortest text; what Go's conversion does with a larger whole float depends on the machine.
- Floats that are infinite or not a number, for which go/conformance/codec.go:77-83 writes text that is no JSON, and Go strings that are not valid UTF-8 are not values of the codec's model.
- JSON escapes for a surrogate without its partner are refused by the reader.
- ArrayLiteral: an element that is null is written as NULL and read back as that text; the drivers' own serializers and the elements of JSON arrays are left out.

Batches, metadata and scopes:

- SkipBatching.StatementIsRowByRow: the skip flags mean what README.md:752-762 promises of them; the text of the statement is the drivers'.
- RETURNING, conflict clauses and key recovery after an insert are left out.
- The two decorator protocols differ only in where the table is kept; the registry models both, without the error for a missing bag.
- RequestScope: the scope that AsyncLocalStorage would supply is a parameter of each step; a middleware's own fields and its `init` are not modelled.
