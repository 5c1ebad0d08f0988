# rok-fluent: a verified model

This project models the parts of the rok-fluent crate where a mistake would be hard to see, and proves what they do
for all inputs, all runs or all reachable states.

- **Single-flight result cache** (`SingleFlight*.dfy`, `CacheKeys.dfy`, `QueryCache.dfy`). A step system of any number
  of callers of `get_or_populate`, any number of writers and the clock. Cloning the in-flight handle, incrementing the
  waiter count, taking the once-cell's permit, reading the database, storing, resolving, removing, decrementing and the
  last-waiter check are separate steps, and a caller can be cancelled wherever it awaits. An invalidation visits the
  shards of the concurrent map one at a time.
- **SQL compiler** (`Tokens.dfy`, `Leaves.dfy`, `Conditions.dfy`, `Exprs.dfy`, `Queries.dfy`, `QueryWriter.dfy`,
  `Statements.dfy`, `Selects.dfy`, `Inserts.dfy`). Both predicate languages, both dialects, CTEs, set operations and
  textual renumbering; what the text means (`Search.dfy`, `*Meaning.dfy`, `AppendedTests.dfy`); and the translation
  between the languages (`Literals.dfy`, `Bridge*.dfy`, `RoundTrips.dfy`, `KeptTrees.dfy`, `IntoSelect.dfy`). Renderings
  are token sequences with a text each; the meaning of a predicate is given by a parser in which NOT binds tighter than
  AND and AND tighter than OR (section 8.12 of SQL-92, ISO/IEC 9075:1992) and an evaluator in three-valued logic, to
  which a row decides each atomic predicate from its tokens with their values.
- **Readers of SQL** (`Columns.dfy`, `ColumnReading.dfy`, `ColumnFilters.dfy`, `LiteralReading.dfy`, `CaseReading.dfy`,
  `Nesting.dfy`, `QueryReading.dfy`, `SetOps.dfy`, `SetRows.dfy`, `StatementReading.dfy`, `TailReading.dfy`,
  `SelectReading.dfy`, `InsertReading.dfy`, `CopyReading.dfy`). They know nothing of the builders: they go by keywords,
  operators, quotes, commas and parentheses, and say which test an atomic predicate makes on a row of column values,
  which column gets which value, and which rows a set operation keeps. What is written is then proved to be read as
  what was built.
- **Migration runner** (`Migrations.dfy`, `MigrationStack.dfy`, `Orphans.dfy`). The tracking table and an abstract
  schema, with failure possible at every `up` and `down`.
- **Paging** (`Cursor.dfy`, `CursorWalks.dfy`, `Walks.dfy`, `Pages.dfy`, `Doubles.dfy`, `LargeTotals.dfy`,
  `PageRanges.dfy`). Cursor tokens down to the bits, the cursor walk over a filtered query, the chunk loop, and page
  arithmetic in double precision.
- **Fast forms and encoders** (`Eager.dfy`, `Pivots.dfy`, `Csv.dfy`).

Loops and objects of the source are methods and classes here, each proved against a function that the lemmas are
about. `dafny verify dfyconfig.toml` checks everything.

## Where the code differs from its documentation

The model follows the code.

- `copy_insert` documents an error for an empty row list and for differing column sets; the code returns 0 and does not
  compare columns, so that values can land under the wrong ones (`CopyReading.CopyPairsIff`).
- The caching guide says that different bound values never share a key. They do when they read the same in SQL: a float
  that displays like an integer, a text that spells a UUID (`CacheKeys.KeysAgreeIff` says exactly which,
  `CacheKeys.ValuesCollide` shows them).
- The module documentation of the cache says that concurrent misses for a key produce one query. This holds
  until a cancelled last waiter takes an unresolved attempt off the register which a newcomer has just cloned
  (`SingleFlightRuns.OneLoaderUnlessDetached`); from there two loaders can run at once
  (`SingleFlightDetach.DetachmentDoubles`, with a whole run in `SingleFlightTraces.CancellationDetaches`). A caller that
  missed before another's put may in any case load again afterwards.
- `cursor_paginate` promises keyset pagination. The cursor is one more condition joined by AND, so that after an
  `or_where` it no longer restricts the rows in front of the OR: pages repeat and the walk need not end
  (`CursorWalks.WalkNeverEnds`). The same goes for the soft-delete filter and for the foreign key of a relation subquery
  (`AppendedTests.SoftDeleteIff`, `AppendedTests.SubqueryBindsIff`).
- The right side of a set operation is written without parentheses, so that one nested in it is done after the outer one
  unless it is an INTERSECT (`SetOps.NestedSetIff`).
- A migration of the last batch that is no longer registered keeps every later rollback from reaching an older batch,
  although the rollbacks report success (`Orphans.OrphanBlocks`).
- The SET list of a numbered UPDATE is numbered from 1 even behind a WITH clause that binds values, so that the columns
  get those values instead (`StatementReading.UpdateAssignsIff`).
- `expr_to_condition` presents its last arm as one for future variants; `= ANY` already falls to it and is lost
  (`Bridge.EqAnyLost`).

## Assumptions

- Writes go through `execute` and a cached query reads only the table it is keyed by.
- A failing `up` or `down` changes nothing, registered names are distinct, `down` inverts `up`, and what is recorded
  in the table is still registered, as it was, except in `Orphans.dfy`; other migrations may come and go between runs.
  The insert or delete of the tracking row after a step succeeds, except for the unique-name check, which is modelled.
- The cursor column is the unique integer primary key and the query has no earlier ordering. Results do not change
  while they are walked. `per_page` and the chunk size are at least 1: with a chunk size of 0 the source never stops, and
  a cursor page of 0 rows has no last row to name.
- Pivot rows are unique per owner and related key, keys are not null, and the related key is a 64-bit integer column
  where `toggle` is used with integers: it looks existing keys up as `i64` and overlooks those of another width.
- Floats display as something that does not begin with a `$`, and in CSV, as UUIDs do, without commas and quotes.
- Where statements are read back, names in quotes hold none, parentheses in the caller's text are closed, and no
  fragment of it looks like the beginning of another clause. The predicates `CalmQuery`, `QuietSelect`, `Writable` and
  `QuietBranches` say so precisely.
- Text that callers supply verbatim contains no `$` followed by a digit where whole-statement numbering is concerned.

## Model

| member | source | states |
|---|---|---|
| SingleFlightRuns.SafeRuns | src/orm/cache.rs:248-308 | In every reachable state, under any interleaving and any cancellations: at most one loader runs per attempt, all callers of one attempt hold one outcome, the waiter count is the number of callers between increment and decrement, and the register is empty when no caller holds an attempt |
| SingleFlightInvariant.KeepInv | src/orm/cache.rs:205-220 | Every step of every caller, every write step and the clock keep handles, permits, waiter counts, outcomes and the no-leak cover |
| SingleFlightInvariant.DropCovers | src/orm/cache.rs:211-219 | A guard dropped by a caller that is not the last leaves another caller responsible for the registered attempt |
| SingleFlightRuns.OneLoaderUnlessDetached | src/orm/cache.rs:205-247 | In every run, cancellations included, at most one loader runs per key as long as no last waiter takes an unresolved attempt off the register while another caller that may load holds it |
| SingleFlightDetach.DetachmentDoubles | src/orm/cache.rs:211-219 | From every reachable point at which that happens, some continuation has two loaders running for the key |
| SingleFlightRuns.OneLoaderPerKey | src/orm/cache.rs:222-247 | In every run without cancellation at most one loader runs per key |
| SingleFlightTraces.CancellationDetaches | src/orm/cache.rs:211-219 | A concrete run in which a cancelled last waiter takes an attempt off the register after a newcomer has cloned it, so that two loaders run for one key |
| SingleFlightRuns.NeverRejoined | src/orm/cache.rs:294-300 | A caller without an attempt never gets hold of it once it is off the register |
| SingleFlightRuns.NoReplay | src/orm/cache.rs:237-242 | Once some caller has come back from an attempt, with a value or an error, no call that starts later ever holds that attempt: a failure is retried, not replayed, and only a stored value can still be served, from the cache |
| SingleFlightRuns.NeverStuck | src/orm/cache.rs:279-292 | A call can always go on, or waits for a running loader of its own attempt that can |
| SingleFlightCache.CacheAgrees | src/orm/cache.rs:83-130 | With writes as commit then shard-by-shard invalidation: once a table has no unfinished invalidation, a cached entry was read at the current version of the table exactly when no write was committed between its read and its put |
| SingleFlightCache.HitsAreYoung | src/orm/cache.rs:83-121 | Every hit, raced or not, is served less than its time to live after its put; which lookups hit is in `SingleFlightCalls.FreshIsServed` |
| SingleFlightCalls.FreshIsServed | src/orm/cache.rs:254-260 | In every reachable state a look at an unexpired entry ends the call with exactly that entry and touches neither the cache nor the in-flight machinery; a look at anything else serves nothing |
| SingleFlightCalls.WarmCallHoldsNothing | src/orm/cache.rs:254-260 | A call whose entry is fresh when it looks, whatever others do after it began, never holds an attempt: it has not looked yet or has been served |
| SingleFlightCalls.ColdCall | src/orm/cache.rs:262-308 | On a cold key that nobody is loading a call alone can run to its end: it returns what the database answers or the error, caches a value with the time to live it was called with and an error not at all, and leaves everything else as it was |
| SingleFlightCalls.StoredIsServed | src/orm/cache.rs:83-121 | A stored value is served to a later call exactly as long as the time to live of the storing call has not passed, whatever the later call asks for |
| SingleFlightCalls.CallIsForItsKey | src/orm/cache.rs:248-308 | In any company a call returns an outcome of an attempt for its own key and stores nothing but what it fetched for that key, with its own time to live |
| SingleFlightCalls.EntriesStay | src/orm/cache.rs:83-130 | An entry is lost or replaced only by a store under its key, by a caller that saw an expired entry under it, or by an invalidation of its table reaching its shard |
| SingleFlightCalls.WriteInvalidatesExactly | src/orm/cache.rs:127-130 | A write with its invalidation, run alone, removes exactly the entries of its table |
| SingleFlightTraces.RaceLeavesStale | src/orm/cache.rs:279-292 | A concrete run in which a write that commits and invalidates between a load and its put leaves a stale entry although everything is settled |
| CacheKeys.KeysAgreeIff | src/orm/cache.rs:148-155 | For tables without a colon and all values, arrays of arrays included, in which JSON and UUIDs hold quotes in pairs only: two queries share a key exactly when table and SQL text are the same and the values look alike one by one, that is when they are equal, or an integer and a float that display alike, or texts, UUIDs and JSON that read the same, or arrays whose elements look alike |
| CacheKeys.SameLiteralIff | src/core/condition.rs:26-40 | Two values have the same literal exactly when they look alike in that sense |
| CacheKeys.KeyInjective | src/orm/cache.rs:148-155 | Among Text, Integer, Bool and Null parameters equal keys come from equal table, SQL text and parameters; the SQL text may hold bars and quotes |
| CacheKeys.SplitUnique | src/orm/cache.rs:148-155 | The SQL text and the comma-joined literals can be told apart again, whatever bars and quotes they hold |
| CacheKeys.PrefixIff | src/orm/cache.rs:127-130 | The prefix that invalidation looks for is on exactly the keys made for that table |
| CacheKeys.ValuesCollide | src/orm/cache.rs:148-155 | Every integer shares its key with the float that displays like it, and every quote-free text with the UUID that reads like it, which the caching guide excludes |
| CacheKeys.JsonCollides | src/orm/cache.rs:148-155 | JSON is not quote-doubled: with a lone quote in it the limits between two values can be read differently |
| QueryCache.InvalidatesExactly | src/orm/cache.rs:127-130 | Invalidating a table removes exactly the entries made for it and leaves the others as they were |
| QueryCache.Cache.Get | src/orm/cache.rs:83-106 | A lookup hits exactly an unexpired entry stored as the type asked for; an expired one is removed, one of another type stays |
| QueryCache.Cache.InvalidateTable | src/orm/cache.rs:127-130 | Exactly the entries without the table prefix are retained |
| Tokens.RenumberParams | src/core/query.rs:1082-1109 | The character loop adds the offset to every maximal digit run after a dollar sign, with machine-word wrap-around and unparsable numbers read as 0 |
| Tokens.RenumberIsShiftAction | src/core/query.rs:1082-1109 | On every text, offset 0 is the identity and shifting by a then b is shifting by a + b |
| Tokens.RenumberFlatten | src/core/query.rs:1082-1109 | On flattened tokens it adds the offset to every placeholder and touches nothing else |
| Tokens.ScanFlatten | src/core/query.rs:1082-1109 | Scanning the text for dollar-digit runs finds exactly the placeholder tokens |
| Conditions.CondNumbering | src/core/condition.rs:208-353 | At any offset a condition numbers its bound values consecutively and in order |
| Conditions.ToParamSql | src/core/condition.rs:208-353 | The recursive loops over groups and subqueries produce the specified tokens and parameters, in both dialects; which test those tokens make is in `ColumnReading.CondReads` |
| Conditions.CondErase | src/core/condition.rs:356-467 | Up to its numbers a rendering depends neither on the offset nor, where both dialects spell the condition alike, on the dialect |
| Conditions.CondClean | src/core/condition.rs:208-353 | No digit follows a placeholder, and no caller text without a dollar-digit can be taken for one |
| ColumnReading.CondReads | src/core/condition.rs:208-467 | In both dialects and at any offset the rendering of a condition, read by its operator words on a row of column values, is the test that was built: comparisons, LIKE and ILIKE, null tests, IN with empty lists, = ANY, BETWEEN, JSON members, full-text search, EXISTS |
| ColumnReading.ExprReads | src/dsl/expr.rs:139-285 | So is the rendering of a leaf of the other language, column comparisons, aggregates and subqueries included; operators given as text are comparisons, and IN lists are not empty |
| ColumnReading.EmptyInHasNoTest | src/dsl/expr.rs:150-179 | An IN without values has no operand to read and is no test at all |
| ColumnReading.WhereTests | src/core/query.rs:1115-1138 | A rendered WHERE list means on every row of column values the OR of its maximal AND-runs of the tests that were built |
| ColumnReading.ExprTests | src/dsl/expr.rs:139-285 | At any offset and in either dialect a rendered expression is, on every row of column values, the AND, OR and NOT of the tests that were built |
| LiteralReading.LiteralReads | src/core/condition.rs:26-41 | In any context a literal is read back as its value, nested arrays and texts with any quotes included, and reading goes on right behind it |
| LiteralReading.JsonReadsIff | src/core/condition.rs:33 | A JSON literal is read as its value exactly when no quote occurs in it |
| Queries.QueryNumbering | src/core/query.rs:483-552 | Through CTEs inside CTEs and set operations the placeholders number all bound values consecutively from 1 |
| Queries.QuerySpelled | src/core/query.rs:483-552 | The text obtained by nesting, renumbering and cutting SELECT spells the intended tokens |
| Queries.PlaceholdersInOrder | src/core/query.rs:483-552 | The PostgreSQL text contains exactly $1 to $n, once each, in increasing order, and $k stands for the k-th parameter |
| Queries.DialectsAgree | src/core/query.rs:483-552 | For dialect-neutral conditions the ? text is the $N text with the numbers erased |
| QueryWriter.BuildWhere | src/core/query.rs:1115-1138 | The WHERE loop writes the specified text and extends the parameter list |
| QueryWriter.BuildCtes | src/core/query.rs:995-1022 | The WITH loop renders, renumbers and joins the definitions as specified |
| QueryWriter.ToSql | src/core/query.rs:483-552 | The statement writer produces the specified text and parameters; what they say is in `QueryReading.QueryReads` and `SetRows.RowsAreAsked` |
| QueryReading.QueryReads | src/core/query.rs:483-552 | Every statement is read back as it was built: the WITH entries with names, columns and their own statements, what is selected from where, the conditions, the clauses after them, and the set operation that was asked for with its right side |
| Text.SpacesInOrder | src/core/query.rs:509-530 | Joins and clauses are written in their order, each after a blank |
| SetOps.KindReads | src/core/query.rs:80-91 | The words between two SELECTs are read as the verb that was asked for, with ALL exactly where it was asked for |
| SetOps.MeantIsAsked | src/core/query.rs:80-91 | Counted row by row, what the words combine is the union, intersection or difference of sets without repeats, or of multisets with ALL |
| SetRows.RowsAreAsked | src/core/query.rs:540-549 | The rows of a statement are those its set operation asks for, of the rows of both sides, each run as a statement of its own with the WITH entries in scope |
| SetOps.NestedSetIff | src/core/query.rs:540-549 | A set operation nested on the right, which is written without parentheses, means what was built on all rows exactly when it is an INTERSECT, or both are UNION or both UNION ALL, or an EXCEPT follows an INTERSECT |
| Statements.FilteredNumbering | src/core/query.rs:554-589 | COUNT and DELETE behind a WITH clause are numbered consecutively from 1 |
| Statements.UpdateNumberingIff | src/core/query.rs:595-627 | A PostgreSQL UPDATE is numbered as its parameters demand exactly when its WITH clause or its SET list binds nothing |
| StatementReading.CountReads | src/core/query.rs:558-571 | A count is read back as taken over the table with its joins under all conditions |
| StatementReading.DeleteReads | src/core/query.rs:577-589 | A DELETE is written exactly when there are conditions, and deletes what they pick out of the table |
| StatementReading.UpdateReads | src/core/query.rs:595-627 | An UPDATE is written exactly when there are conditions, and is read back with its table, its columns in order and its conditions |
| StatementReading.UpdateAssignsIff | src/core/query.rs:595-627 | With ? every column gets its own value; with numbers exactly when the values bound by WITH, which take the first numbers, happen to be the ones the columns should get |
| StatementReading.UpdateAssigns | src/core/query.rs:595-627 | Where WITH binds nothing every column gets its own value in either dialect |
| Search.ReadList | src/core/query.rs:1115-1138 | A flat list read with SQL precedence is the OR of its maximal AND-runs, or unreadable if an entry is |
| Meaning.WhereMeans | src/core/query.rs:1115-1138 | A rendered WHERE list means the OR of its maximal AND-runs, and is unreadable exactly if a group in it is empty |
| Meaning.ReadCond | src/core/condition.rs:281-294 | A rendered condition is read back as one factor with its own meaning |
| ExprMeaning.ReadExpr | src/dsl/expr.rs:139-285 | Read with SQL precedence, the rendering of an expression is exactly its tree, whatever follows it |
| ExprMeaning.ReadWhole | src/dsl/expr.rs:139-285 | The whole rendering reads as the tree of the expression |
| ExprMeaning.ShapeMeans | src/dsl/expr.rs:139-285 | At any offset and in either dialect the tree that is read has the meaning of the expression |
| Exprs.ExprNumbering | src/dsl/expr.rs:139-285 | At any offset an expression numbers its bound values consecutively and in order |
| Exprs.RenderCase | src/dsl/expr.rs:348-379 | The loop over CASE branches produces the specified tokens and parameters |
| CaseReading.CaseReads | src/dsl/expr.rs:348-379 | A rendered CASE is read back branch by branch: each condition with its own value, in order, and the ELSE value if there is one |
| Exprs.ExprErase | src/dsl/expr.rs:139-285 | Offsets and dialects change only the numbers of a rendering |
| Literals.ExprToLiteral | src/orm/bridge.rs:157-166 | The loop that replaces $N from the highest number down computes the specified text |
| Literals.InlineDownIff | src/orm/bridge.rs:157-176 | Replacing one number at a time from the highest down equals substituting all placeholders at once exactly when at no point a dollar sign of a fragment, or of a literal put in before, is followed by a digit from 1 to the number that is next |
| Literals.PassMark | src/orm/bridge.rs:157-166 | A numeral still present is never extended by a higher one |
| Literals.ExprLiteralIff | src/orm/bridge.rs:157-176 | This holds for every expression, CASE included, with any number of parameters; and the condition is met whenever the literal text has no dollar sign before a digit |
| Literals.QuietInlinable | src/orm/bridge.rs:157-166 | Dollar signs that no digit follows do no harm |
| Literals.DollarBreaks | src/orm/bridge.rs:157-166 | A value whose text is $1 is itself replaced: the concrete wrong text |
| Bridge.CondRendersAlike | src/orm/bridge.rs:17-51 | For AND/OR trees over plain leaves the condition renders at any offset and in either dialect to the tokens and parameters of the expression |
| Bridge.CondRendersAlikeIff | src/orm/bridge.rs:17-63 | For every expression: text and parameters are kept exactly when no IN list is empty, every LIKE pattern is text, negations and CASEs bind nothing, and there is neither an aggregate comparison nor = ANY |
| Bridge.CondKeepsLiteral | src/orm/bridge.rs:45-58 | NOT, CASE and aggregate comparisons keep the text with values inlined |
| Bridge.CondKeepsLiteralIff | src/orm/bridge.rs:17-63 | For every expression without an empty IN list, a LIKE pattern that is not text or = ANY: it keeps the text with values inlined exactly when in no operand of a NOT or CASE a dollar sign is taken for a placeholder |
| Bridge.InlineNotIff | src/orm/bridge.rs:46 | A negation keeps it exactly when no dollar sign in its operand is taken for a placeholder |
| Bridge.InlineCaseIff | src/orm/bridge.rs:55-58 | So does a CASE |
| Bridge.EqAnyLost | src/orm/bridge.rs:59-61 | = ANY falls to the catch-all arm: it renders as 1=1 and binds nothing |
| BridgeBack.RoundTrip | src/orm/bridge.rs:106-145 | An AND/OR tree over plain leaves, turned into a condition and back, renders to the same tokens and parameters |
| RoundTrips.RoundTripIff | src/orm/bridge.rs:17-145 | For every expression: turned into a condition and back it has its text and parameters again exactly when every LIKE pattern is text, negations and CASEs bind nothing, and there is neither an aggregate comparison nor = ANY |
| BridgeBack.LiteralIff | src/core/condition.rs:469-573 | The literal text is the rendering with values inlined exactly when no LIKE pattern contains a quote |
| BridgeBack.CondKept | src/orm/bridge.rs:106-145 | In three-valued logic the expression means what the condition meant, when groups have their ANDs first and IN lists are non-empty, on rows that decide atoms by their text, and on all rows if nothing falls back to raw text |
| BridgeBack.GroupKeptIff | src/orm/bridge.rs:136-145 | The left fold of a group of distinct atoms keeps its meaning in every row exactly when its ANDs come first |
| KeptTrees.TreeKeptIff | src/orm/bridge.rs:106-145 | A tree of non-empty groups, however deep, over leaves with distinct texts keeps its meaning in every row that decides atoms by their text exactly when every group in it has its ANDs first |
| Search.FoldIsPrecedenceIff | src/orm/bridge.rs:136-145 | A left fold agrees with SQL precedence for all truth values exactly when no AND comes after an OR |
| IntoSelect.IntoSelect | src/orm/bridge.rs:70-102 | The loops hand AND-joined entries to where_, OR-joined ones to or_where, and carry over order, limit and offset |
| IntoSelect.IntoSelectKeepsMeaning | src/orm/bridge.rs:70-79 | The builder filter and the query filter, both read with SQL precedence, agree when each list has its ANDs first, on every row that decides atoms by their text, and on all rows if nothing falls back to raw text |
| IntoSelect.IntoSelectIff | src/orm/bridge.rs:70-79 | For distinct atoms they agree on all rows exactly when all AND-joined entries, the first one included, come first |
| IntoSelect.OrdersAlike | src/orm/bridge.rs:81-92 | The typed builder writes the ORDER BY clause that the query itself writes, word for word |
| Search.SplitIsPrecedenceIff | src/orm/bridge.rs:70-79 | Collecting AND-joined and OR-joined entries apart keeps the meaning exactly when the ANDs come first |
| AppendedTests.SoftDeletedRowsExcluded | src/orm/model_query.rs:72-83 | With no OR among the conditions the appended IS NULL test is true of every row that the final query admits |
| ColumnFilters.DeletedRowsAreHidden | src/orm/model_query.rs:72-83 | With no OR among the conditions the soft-delete column is NULL in every row that the final query admits |
| ColumnFilters.HidesDeletedIff | src/orm/model_query.rs:72-83 | After distinct atoms every admitted row of column values has a NULL in that column exactly when no atom but the first is joined by OR |
| ColumnFilters.CursorComparesKeys | src/orm/model_query.rs:1066-1069 | On a table of column values in key order the test that a cursor appends admits exactly the higher keys |
| AppendedTests.SoftDeleteIff | src/orm/model_query.rs:72-83 | For distinct atoms the appended filter binds every admitted row exactly when no condition after the first is joined by OR |
| AppendedTests.AppendedTestIff | src/core/query.rs:1115-1138 | For distinct atoms any test that is appended with AND binds every admitted row exactly when no condition after the first is joined by OR |
| AppendedTests.SubqueryText | src/core/condition.rs:306-331 | Between its parentheses a relation subquery holds the list of its foreign-key test and its conditions, the first of them joined by AND |
| AppendedTests.SubqueryBindsIff | src/core/condition.rs:306-331 | For distinct atoms the foreign-key test binds every row the subquery finds exactly when no condition after the first is joined by OR |
| Selects.SelectNumbering | src/dsl/select.rs:425-556 | ON, WHERE, OR WHERE and HAVING values are numbered consecutively from 1 across all clauses |
| Selects.SelectBuilder.Render | src/dsl/select.rs:425-556 | The clause loops produce the specified tokens and parameters |
| Selects.RenderChain | src/dsl/select.rs:466-490 | The loop over expressions numbers on from the parameters bound so far |
| SelectMeaning.WhereIsAllOrAny | src/dsl/select.rs:466-499 | The filter means (all where_) OR (any or_where); only an AND part without any text is dropped |
| ColumnFilters.BuilderTests | src/dsl/select.rs:465-499 | On every row of column values a builder admits what passes all of its `where_` tests or any of its `or_where` ones |
| SelectReading.SelectReads | src/dsl/select.rs:425-556 | Every rendered statement is read back clause by clause as the builder was told: joins with their kinds and conditions, filter, groups, HAVING, and the tail |
| TailReading.TailReads | src/dsl/select.rs:521-556 | The end of a statement is read back: each column with its direction and its nulls, limit and offset, the lock with its conflict rule, and the set operations |
| Inserts.InsertNumbering | src/dsl/insert.rs:178-224 | An upsert numbers the inserted values first and its SET values after them without a gap |
| Inserts.ExcludedIff | src/dsl/insert.rs:199-202 | A column is set to its own EXCLUDED value exactly when its name neither begins nor ends with a quote |
| Inserts.InsertBuilder.ToSql | src/dsl/insert.rs:178-224 | The writer produces the specified tokens and parameters; what they store is in `InsertReading.StoredAsBuilt` |
| InsertReading.InsertReads | src/dsl/insert.rs:178-224 | Read back with its parameters, the statement says what was built: the i-th column gets the i-th value, every SET entry its own value or the proposed one, and the same columns are returned |
| InsertReading.StoredAsBuilt | src/dsl/insert.rs:178-224 | The stored row has exactly the columns that were built, each with its own value |
| InsertReading.OverwrittenAsBuilt | src/dsl/insert.rs:196-213 | A row in the way is overwritten in the named columns only, with the bound values or with its own new ones |
| Migrations.MigrationRunner.Run | src/migrate/runner.rs:159-182 | The loop applies pending migrations until a step or a duplicate name fails |
| Migrations.MigrationRunner.Rollback | src/migrate/runner.rs:185-211 | The loop computes the rollback function, step by step on the database, and stops where a step fails; what that function removes and undoes is in `Orphans.RollbackUndoesRegistered` |
| Orphans.RollbackUndoesRegistered | src/migrate/runner.rs:185-211 | Whatever is registered, a rollback removes exactly the registered rows of the last batch that are newer than the first registered one whose `down` fails; every other row stays where it is, and the schema is undone by the removed rows only, newest first |
| Orphans.UnregisteredStays | src/migrate/runner.rs:197-208 | The row of an unregistered migration outlives every rollback, as do the rows of older batches |
| Orphans.OrphanBlocks | src/migrate/runner.rs:185-211 | With an unregistered migration in the last batch, once the rest of the batch is undone every further rollback ends well and changes nothing |
| MigrationStack.RunAppends | src/migrate/runner.rs:159-182 | A run applies the pending migrations in registration order, as one batch, up to the first that fails |
| MigrationStack.RollbackPops | src/migrate/runner.rs:185-211 | A rollback undoes the newest rows of the batch, newest first, up to the first failing down |
| MigrationStack.StackForever | src/migrate/runner.rs:159-211 | From a fresh database, over any sequence of runs and rollbacks stopping anywhere, each with its own list of registered migrations that keeps what is recorded: the schema is the replay of the rows, ids ascend, and batches climb from 1 without a gap |
| MigrationStack.BatchesAreContiguous | src/migrate/runner.rs:119-124 | The batches in use are exactly 1 to the current batch |
| MigrationStack.RunTwice | src/migrate/runner.rs:159-182 | After a run that ends well a further run changes nothing |
| MigrationStack.RollbackUndoesRun | src/migrate/runner.rs:185-211 | A rollback undoes a run, complete or stopped half-way, that applied anything |
| MigrationStack.RollbackResumes | src/migrate/runner.rs:185-211 | A rollback stopped by a failing down and the next one together equal one clean rollback |
| MigrationStack.RunResumes | src/migrate/runner.rs:159-182 | A run stopped by a failing up and the next one together give the names, in order, and the schema of one clean run |
| Cursor.CursorRoundTrip | src/orm/pagination.rs:215-228 | Every 64-bit integer survives its cursor token |
| Cursor.DecodeEncode | src/orm/pagination.rs:215-228 | Unpadded URL-safe base64 decoding undoes encoding for every byte sequence |
| Cursor.EncodeDecode | src/orm/pagination.rs:220-228 | Strict decoding accepts only the encoding of what it returns |
| Cursor.CanonicalIff | src/orm/pagination.rs:220-228 | A decodable token is the one issued for its integer exactly when it has eleven characters |
| CursorWalks.CursorPaginate | src/orm/model_query.rs:1051-1096 | A token appends the test for a key above its integer to the conditions, an undecodable one asks for the first page; the extra row becomes the next cursor |
| CursorWalks.NewCursorPage | src/orm/pagination.rs:186-209 | The extra row is cut off, and without it there is no next cursor |
| CursorWalks.CursorsNameRows | src/orm/model_query.rs:1063-1098 | The previous cursor of a page decodes to the id that was asked for, the next one to the key of the last row shown |
| CursorWalks.FollowCursors | src/orm/model_query.rs:1051-1096 | With no OR after the first condition, following next_cursor ends and visits every row of the filtered result exactly once, in ascending key order |
| CursorWalks.CursorsResumeIff | src/orm/model_query.rs:1061-1075 | For distinct atoms: on every table a cursor leads to exactly the rows of the result with a higher key, exactly when no condition after the first is joined by OR |
| CursorWalks.WalkNeverEnds | src/orm/model_query.rs:1061-1075 | Otherwise, for distinct atoms, there is a table whose walk never ends and shows its first row for ever |
| Walks.Chunk | src/orm/model_query.rs:944-974 | Batches are handed over in order until one is not full or the callback refuses one |
| Walks.ChunksCover | src/orm/model_query.rs:944-974 | The batches concatenate to the whole result; all are full but the last |
| Pages.LastPageExact | src/orm/pagination.rs:57-59 | For any rounding that up to 2^53 is monotone and exact on integers, and from 2^-32 on is off by at most one part in 2^53: last_page is max(1, ceil(total / per_page)), cut off at the largest u32 |
| Doubles.RoundRounds | src/orm/pagination.rs:57-59 | Rounding to the nearest double, ties to even, with underflow to zero, is such a rounding |
| Doubles.LastPageInDoubles | src/orm/pagination.rs:57-59 | So last_page as computed in double precision is exact for every total below 2^53 |
| Doubles.LastPageTooLow | src/orm/pagination.rs:57-59 | With 2^53 + 1 rows on pages of 2^30 it is one too low |
| LargeTotals.LastPageNear | src/orm/pagination.rs:57-59 | For every 64-bit total last_page is at most one off, and exact unless the last page holds less than one part in 2^19 of a full page, or is short of a full page by less than that |
| Pages.LastPageOfZero | src/orm/pagination.rs:57-59 | With a page size of zero: one page for a total of at most 0, else the largest u32 |
| PageRanges.PageReportsItsRows | src/orm/pagination.rs:57-94 | A page within range holds the rows from its offset on and reports as many, from the number of its first row modulo 2^32; there is more exactly when it stops short of the last row |
| PageRanges.PagesTile | src/orm/pagination.rs:60-65 | Pages 1 to last tile the result without gap or overlap, each range starting, modulo 2^32, where the one before ended |
| PageRanges.RangeIsRightIff | src/orm/pagination.rs:60-65 | The reported range is that of the rows on the page exactly when the number of the first of them fits 32 bits |
| PageRanges.EmptyPage | src/orm/pagination.rs:57-66 | An empty result is one page that reports no rows |
| PageRanges.AnyPage | src/orm/pagination.rs:57-94 | Whatever page is asked for, its metadata names total, page size and page, and the range counts as many rows as the page holds: 0 to 0 for a page without rows |
| PageRanges.PastTheEnd | src/orm/pagination.rs:57-94 | A page past the last one is empty, reports no rows and is followed by none |
| PageRanges.SimplePaginate | src/orm/model_query.rs:1026-1045 | One row more than the page shows decides exactly whether rows follow |
| PageRanges.NewSimplePage | src/orm/pagination.rs:130-153 | The extra row is cut off and only tells that a next page exists |
| Csv.CopyRoundTripIff | src/services/batch.rs:109-148 | Reading the copied text as CSV recovers every row, field by field, and which fields were quoted, exactly when every row has a field and no array holds a text, JSON or an array |
| Csv.CopyInsert | src/services/batch.rs:91-117 | The loop sends one line per row; no rows send nothing |
| CopyReading.CopyReads | src/services/batch.rs:91-117 | Statement and lines read together: every field arrives under the column that the first row has at its place |
| CopyReading.CopyPairsIff | src/services/batch.rs:91-117 | Every value arrives under its own column exactly when all rows name their columns in the order of the first |
| Csv.NullIsNotEmpty | src/services/batch.rs:127-148 | No value but NULL and a number or UUID without text is read as NULL; the empty text is told apart from it |
| Csv.ArrayBreaks | src/services/batch.rs:142-146 | Wherever it stands, an array that holds a text, JSON or an array is not read back |
| Pivots.PivotTable.Sync | src/orm/postgres/pivot_query.rs:206-250 | The delete and the insert loop compute the specified table |
| Pivots.PivotTable.Toggle | src/orm/postgres/pivot_query.rs:283-343 | The lookup and the loop of deletes and inserts compute the specified table |
| Pivots.SyncIsExact | src/orm/postgres/pivot_query.rs:206-250 | After a sync the owner is related to exactly the ids; other owners are untouched and kept rows keep their extra columns |
| Pivots.SyncIsIdempotent | src/orm/postgres/pivot_query.rs:206-250 | The related set is the set of the ids and a repeat changes nothing |
| Pivots.ToggleFlips | src/orm/postgres/pivot_query.rs:283-343 | Toggling flips exactly the given integer ids, however often each is given, and attaches every other id |
| Pivots.ToggleIsSymmetricDifference | src/orm/postgres/pivot_query.rs:283-343 | On integer ids the result is the symmetric difference with their set |
| Pivots.ToggleTwiceIff | src/orm/postgres/pivot_query.rs:283-343 | Toggling twice restores the related set exactly when every id that is not an integer was related before |
| Eager.GroupHasMany | src/orm/eager.rs:74-104 | Index-based grouping equals nested-loop filtering: parent i gets exactly the children with its key, in input order, when it is the last parent with that key, and none otherwise |
| Eager.GroupHasOne | src/orm/eager.rs:107-138 | The last parent with a key keeps the first child with that key |
| Eager.GroupingConserves | src/orm/eager.rs:74-104 | The grouping holds exactly as many children as have a parent |
| Eager.Deduplicate | src/orm/eager.rs:216-223 | The key list has the same set, no repeats, and first-occurrence order |
| Eager.WithBelongsTo | src/orm/eager.rs:195-240 | One query over the distinct keys finds for every child the parent a lookup of its own would find |

## Left out

- Pools, binding, executors, web layers, the command line, logging, metrics and tracing: plumbing. The database is a map or a sequence of rows.
- Derive macros, factories, casts, schema builders, plain collection helpers, retry, round-robin, hooks, sort and filter builders: each is a single branch or a plain delegation in the crate.
- GROUP BY, HAVING, WINDOW, ORDER BY, LIMIT, OFFSET and locking text of `QueryBuilder`, projections and window columns: parameter-free text, taken as given.
- Subqueries with parameters inside `SelectBuilder` (`from_subquery`, `with_cte`, `union`): the source keeps their text and drops their parameters; parameter-free ones are part of the given text.
- `SelectBuilder::count_sql`: it ignores `or_where`, and is otherwise a shorter `render`.
- The grammar of a set operation whose right side starts with WITH: only its numbering is stated, since the SELECT prefix is put before the WITH.
- `MorphToMany`: the pivot algorithm with one more key column.
- `gap_warnings` and `status` of the migration runner: they only report.
- SingleFlightCache.HitsAreYoung: in the step system every caller of a key asks for one type; the miss on another type is in `QueryCache.Cache.Get`.
- How values compare, what LIKE and full-text search match, and the text forms of floats, JSON and UUIDs: kept abstract, as fields of a `Scene` or as given text.
- The rank of a full-text search and the test of a CASE are opaque to rows; which branches a CASE has is read in `CaseReading.dfy`.
- SetRows.RowsAreAsked: an ORDER BY, LIMIT or lock on one side of a set operation, which SQL gives to the whole statement or refuses, stays with its side in the reader; and the right side is a single SELECT, since `SetOps.NestedSetIff` deals with a nested one.
- `cursor_paginate` and `paginate` of `SelectBuilder`: the paging of `ModelQuery` with a textual cursor.
- Overflow of `usize` in sums of parameter counts and offsets: `renumber_params` wraps as the source does, other sums are of list lengths.
- Exprs.ExprNumbering: an empty IN list renders as `IN ()`, which no database accepts; the model keeps that text, and `ColumnReading.EmptyInHasNoTest` says that it makes no test.
- CacheKeys.KeysAgreeIff: JSON and UUIDs with a quote that has no second one next to it, also inside arrays, are not covered; `CacheKeys.JsonCollides` shows a whole family of such JSON that collides.
- Inserts.InsertBuilder.Execute: whether the database accepts the statement is a parameter, handed on as the outcome.
- CursorWalks.FollowCursors: the client that follows cursors is not part of the repository; it calls `CursorPaginate` until there is no next cursor.
- Pivots.PivotTable.Sync: lists with NULL, for which NOT IN deletes nothing and the insert is refused, are not covered.
- Pivots.PivotTable.Toggle: lists with NULL are not covered either.
