# athena-dumper, modelled in Dafny

athena-dumper builds SQL statements and sends them to Amazon Athena. It
turns the rows that come back into pandas DataFrames and runs batches of
tasks on thread pools, writing each result to disk. This project models
the core of that code and proves properties of the model:

- `common.dfy` (module `Common`): Python's None, the exceptions the code
  raises, and `str()` of a scalar.
- `text.dfy` (module `Text`): `str.join`, and `str.replace` with a count
  of one.
- `query_builder.dfy` (module `QueryBuilder`): the `SimpleQueryBuilder`
  class, with its fields updated in place.
- `foo_generator.dfy` (module `FooGenerator`): `FooQueryGenerator` and its
  two queries.
- `conditions.dfy` (module `Conditions`): `in_with_regex`. Pypika's
  criteria are modelled by a datatype.
- `functions.dfy` (module `SqlFunctions`): `json_extract`.
- `dataframe.dfy` (module `DataFrame`): `convert_results_to_df`, and the
  rule of pandas' DataFrame constructor that the call relies on.
- `athena.dfy` (module `Athena`): `AthenaQueryExecutor`, with the remote
  service passed in as an input.
- `thread.dfy` (module `ThreadSafe`): `ThreadSafeWrapper`.
- `task.dfy` (module `Tasks`): `Task`.
- `scheduling.dfy` (module `Scheduling`): the drain loop shared by
  `lib/exec.py` and `lib/parallel.py`, which logs each finished task and
  writes the result of each task that returned.
- `parallel.dfy` (module `Parallel`): `run`.
- `exec.py`'s functions are in `exec.dfy` (module `Exec`):
  `execute_with_dependant`, `execute` and `execute_in_parallel`.
- `qexec.dfy` (module `QExec`): `ChainedQuery`, `chained_execute` and
  `execute`.

Some behaviour is outside the program, and each such part is an input of
the model:

- the Athena service: the execution id it assigns, the status it reports
  at each poll, and the rows it returns;
- Pypika's rendering of a query to SQL;
- each task's callable: what it returns or raises;
- the order in which a pool completes its futures, given as a
  permutation;
- which calls of the write sink raise.

`time.sleep` is recorded in a ghost log of delays.

Where the code and its documentation disagree, the model follows the
code:

- The wait loop's comment promises a Fibonacci backoff. The code doubles
  the delay after each pending poll (`Athena.BackoffDoubles`).
- The query status set by the wait is never consulted. Results are
  fetched whatever state the job ended in (`Athena.Fetched`). Starting a
  query and fetching its rows may raise; the exception propagates out of
  `execute`, `execute_with_dependant` and `chained_execute` unchanged.
- `chained_execute` checks each item's type just before running it, not
  all items up front. The queries of earlier items have already been sent
  when the TypeError is raised (`QExec.LateTypeError`).
- After a step that returns no table or an empty table, the next query
  is sent unfiltered (`QExec.NextQueryErrors`).
- The log lines are the exact f-strings of the code: `[SUCCEEDED] Task-…`
  and `[FAILED] Task-…` in `run`, and `Task … executed successfully` and
  `Task with … generated an exception: …` in `execute_in_parallel`.

## Model

| member | source | states |
|---|---|---|
| Text.Join | builder/query.py:39 | defines `str.join`; used by QueryBuilder.StoredListExamples and QueryBuilder.RenderLayout |
| Text.ReplaceFirst | builder/query.py:64 | defines `str.replace` with a count of 1; stated by ReplaceFirstAt, ReplaceFirstAbsent and ReplaceFirstSkip |
| Text.ReplaceFirstAt | builder/query.py:64 | replace with count 1 changes only the leftmost occurrence: text before it and after it, later occurrences included, is kept |
| Text.ReplaceFirstAbsent | builder/query.py:64 | replacing in a string without the pattern gives the string back |
| Text.ReplaceFirstSkip | builder/query.py:64 | a prefix that cannot start the pattern is copied unchanged and the replacement happens in what follows |
| QueryBuilder.Stored | builder/query.py:38-42 | defines how `where` stores a parameter; stated by SimpleQueryBuilder.Where, StoredListExamples and EmptyListRendersEmptyQuotes |
| QueryBuilder.Render | builder/query.py:45-71 | defines the statement `build` returns; stated by RenderLayout, ConditionSubstitution, SingleConditionRender and SingleInRender |
| QueryBuilder.SimpleQueryBuilder.constructor | builder/query.py:2-11 | the builder starts with the given table, no columns and no conditions |
| QueryBuilder.SimpleQueryBuilder.Select | builder/query.py:13-24 | the column list is replaced, not extended; nothing else changes; the same builder is returned |
| QueryBuilder.SimpleQueryBuilder.Where | builder/query.py:26-43 | exactly one condition is appended: a list parameter is stored as its str() forms joined by "','", any other parameter as given; the same builder is returned |
| QueryBuilder.SimpleQueryBuilder.Build | builder/query.py:45-71 | the statement is the rendering of the builder's state, and the builder is not changed |
| QueryBuilder.RenderLayout | builder/query.py:53-69 | the statement starts with "SELECT " and ends with " LIMIT 50;"; it has no WHERE clause (and two spaces before LIMIT) iff there are no conditions; otherwise it has one rendered condition per stored one, in insertion order, joined by " AND " |
| QueryBuilder.ConditionSubstitution | builder/query.py:63-65 | only the first "%s" of a condition becomes the quoted parameter, and a condition without "%s" is kept as written |
| QueryBuilder.InCondition | builder/query.py:64 | "col IN (%s)" renders as "col IN ('v')" |
| QueryBuilder.SingleConditionRender | builder/query.py:53-69 | no columns and one condition give "SELECT * FROM t WHERE c LIMIT 50;" |
| QueryBuilder.SingleInRender | builder/query.py:53-69 | no columns and one IN condition give the statement with the stored parameter between "('" and "')" |
| QueryBuilder.StoredListExamples | builder/query.py:38-40 | ["a","b"] is stored as a','b, and None in a list is stored as "None" |
| QueryBuilder.EmptyListRendersEmptyQuotes | builder/query.py:38-40 | an empty list renders as '' |
| QueryBuilder.QuoteNotEscaped | builder/query.py:64 | a quote inside a parameter is inserted unescaped |
| FooGenerator.FooQueryGenerator.constructor | generator/database_foo/default.py:4-8 | both parameters default to an empty list; exactly the keys "name" and "user_id" are declared, holding the given parameters |
| FooGenerator.FooQueryGenerator.GetUsers | generator/database_foo/default.py:10-13 | the users query is the builder's statement for database.user with the one condition "name IN (%s)", and reads "SELECT * FROM database.user WHERE name IN ('<names>') LIMIT 50;" |
| FooGenerator.FooQueryGenerator.GetTransactions | generator/database_foo/default.py:15-18 | the same for database.transaction and "user_id IN (%s)" |
| FooGenerator.UsersText | generator/database_foo/default.py:10-13 | the users statement for any stored parameter |
| FooGenerator.TransactionsText | generator/database_foo/default.py:15-18 | the transactions statement for any stored parameter |
| FooGenerator.UsersQueryExample | generator/database_foo/default.py:10-13 | names ["a","b"] give "... WHERE name IN ('a','b') LIMIT 50;" |
| Conditions.Leaves | query/conditions.py:25-28 | a criterion has at least one leaf, and every leaf is a LIKE criterion |
| Conditions.LeftOr | query/conditions.py:25-28 | defines the fold that ORs each LIKE criterion into `combined_condition`; stated by LeftOrShape and LeftNestedUnique |
| Conditions.LeftOrShape | query/conditions.py:25-28 | folding LIKE criteria with OR gives a left-nested criterion whose leaves are those criteria, in order |
| Conditions.LeftNestedUnique | query/conditions.py:25-28 | a left-nested criterion is determined by its leaves |
| Conditions.Combined | query/conditions.py:17-32 | defines the criterion in_with_regex returns; stated by CombinedCases and CombinedUnique |
| Conditions.CombinedCases | query/conditions.py:17-32 | no values give None; one value gives its LIKE '%v%' with no OR; n >= 2 values give an OR with n LIKE leaves in value order; a non-list is treated as a one-element list |
| Conditions.CombinedUnique | query/conditions.py:17-32 | any left-nested criterion with those leaves is the one returned |
| Conditions.InWithRegex | query/conditions.py:1-32 | the loop returns None iff there are no values, and otherwise the left-nested OR of one LIKE '%v%' per value |
| SqlFunctions.JsonExtract | query/functions.py:1-16 | the text is "json_extract(", the blob, ", '", the element and "')", each at a stated position |
| SqlFunctions.JsonExtractInjective | query/functions.py:16 | when the blob's length is known, both arguments are recovered from the text |
| SqlFunctions.JsonExtractNotEscaped | query/functions.py:16 | quotes are not escaped, so two different argument pairs can give the same text |
| DataFrame.MaxWidth | lib/dataframe.py:27 | the widest row's width: no row is wider, and some row has it |
| DataFrame.Pad | lib/dataframe.py:27 | a short row keeps its cells and is padded with None |
| DataFrame.Frame | lib/dataframe.py:27 | a frame that is built has the given header, one row per data row, and every row as wide as the header |
| DataFrame.Convert | lib/dataframe.py:3-28 | every table that is returned is well formed |
| DataFrame.ConvertSpec | lib/dataframe.py:3-28 | no rows give no table; a header cell without VarCharValue gives a KeyError; a ValueError happens iff some data row is wider than the header, or every data row is narrower; otherwise the header is the first row's values and each cell is kept in place, with missing values and padding as None |
| DataFrame.HeaderOnly | lib/dataframe.py:13-27 | a header row alone gives an empty table with columns, which is not the "no table" of no rows |
| DataFrame.ConvertResultsToDf | lib/dataframe.py:3-28 | the loop over the data rows returns Convert's result |
| DataFrame.Column | lib/exec.py:42 | a column holds one value per row, top to bottom |
| DataFrame.ColumnsUpToLength | lib/qexec.py:54-57 | gathering n columns gives n values per row |
| DataFrame.ColumnsUpToCell | lib/qexec.py:54-57 | when gathering column by column, cell (k, j) lands at position j * rows + k |
| DataFrame.AllColumnValuesNonEmpty | lib/qexec.py:51-57 | a table that is not empty yields at least one value |
| Athena.FirstTerminal | executor/athena.py:47-56 | the index of the first terminal status, or None when there is none |
| Athena.Backoff | executor/athena.py:58-62 | n sleeps give n delays |
| Athena.WaitSpec | executor/athena.py:35-64 | defines the polls, sleeps and status of the wait; stated by WaitBehaviour, WaitStopsAt, WaitExhausted and WaitNegativeDelay |
| Athena.WaitBehaviour | executor/athena.py:35-64 | with a non-negative initial delay: at most max_attempt polls, and none for max_attempt <= 0; the status is true iff SUCCEEDED is the first terminal status; polling stops at the first terminal status; each pending poll is followed by one sleep |
| Athena.WaitNegativeDelay | executor/athena.py:58-62 | a negative initial delay makes the first sleep raise after one pending poll |
| Athena.WaitStopsAt | executor/athena.py:47-56 | a terminal status at poll k means k + 1 polls, k sleeps, and the status set to whether it is SUCCEEDED |
| Athena.WaitExhausted | executor/athena.py:47-64 | all polls pending means max_attempt polls, a sleep after each, and the status false |
| Athena.BackoffDoubles | executor/athena.py:58-62 | each delay is twice the one before, starting at the initial delay, so the delays are not a Fibonacci sequence |
| Athena.BackoffTotal | executor/athena.py:58-62 | n sleeps from d last d * (2^n - 1) in all |
| Athena.WaitAllPending | executor/athena.py:35-64 | with the default initial delay and every poll pending, the status is false after max_attempt polls and 2^max_attempt - 1 seconds of sleep |
| Athena.AthenaQueryExecutor.constructor | executor/athena.py:14-18 | the executor uses the poweruser workgroup, has no execution id, and has status false |
| Athena.AthenaQueryExecutor.ExecuteQuery | executor/athena.py:20-33 | the id the service assigns to the query in the workgroup is recorded; an exception the service raises is returned and the id is left as it was; nothing else changes |
| Athena.AthenaQueryExecutor.WaitForQueryToComplete | executor/athena.py:35-64 | max_attempt defaults to 5 and initial_delay to 1; the polls, sleeps and status are those of the wait specification; a raising sleep leaves the status unchanged |
| Athena.AthenaQueryExecutor.GetQueryResults | executor/athena.py:66-77 | the rows, or the exception, are the service's answer for the recorded execution id |
| Athena.Fetched | executor/athena.py:20-77 | defines the rows fetched for a query in the poweruser workgroup (start_query_execution, then get_query_results), or the exception starting it or fetching them raises; used by the contracts of Exec.Execute, Exec.ExecuteWithDependant and QExec.ExecuteOutcome |
| ThreadSafe.SetAttr | lib/thread.py:47-51 | defines the update set_dependant_attr makes, or its KeyError; stated by SetAttrSpec and SetAttrIdempotent |
| ThreadSafe.SetAttrSpec | lib/thread.py:46-52 | the update succeeds iff attributes exist and declare the key; then the key is set, every other key keeps its value and no key is added; otherwise a KeyError with the source's message is raised |
| ThreadSafe.SetAttrIdempotent | lib/thread.py:46-52 | setting the same key to the same value twice is the same as setting it once |
| ThreadSafe.ThreadSafeWrapper.constructor | lib/thread.py:12-17 | the lock is new |
| ThreadSafe.ThreadSafeWrapper.WithLock | lib/thread.py:19-34 | the wrapped call's result is returned unchanged |
| ThreadSafe.ThreadSafeWrapper.SetDependantAttr | lib/thread.py:36-52 | the attributes become SetAttr's result on success and are unchanged on a KeyError |
| Tasks.Task.constructor | lib/task.py:4-9 | the id and callable are stored as given, and the lock is new |
| Tasks.Task.Run | lib/task.py:11-19 | the callable's result is returned, and the callable is called exactly once |
| Scheduling.Permuted | lib/parallel.py:36 | the tasks in completion order: position j holds task order[j] |
| Scheduling.PermutedDrop | lib/parallel.py:36 | removing the last task from a completion order leaves a completion order of the others |
| Scheduling.PermutedMultiset | lib/parallel.py:36 | each task completes exactly once |
| Scheduling.DrainSpec | lib/parallel.py:36-47 | defines the log lines, writes and write error of the drain loop; stated by DrainLogs, DrainLines, DrainWrites, DrainCompletes, DrainStops and DrainStep |
| Scheduling.DrainLogs | lib/parallel.py:36-47 | a drain that ran to the end logged each task once, in completion order, and wrote exactly the results that were returned; one that a write stopped logged up to the task whose write raised, and wrote the results before it |
| Scheduling.DrainLines | lib/parallel.py:36-45 | the log lines are those of a prefix of the completed tasks |
| Scheduling.DrainWrites | lib/parallel.py:43-47 | the writes are the returned results, up to the write that raised |
| Scheduling.DrainCompletes | lib/parallel.py:38-42 | a task that raises does not stop the loop; only a raising write does |
| Scheduling.DrainStops | lib/parallel.py:47 | after a write raises, nothing more is drained |
| Scheduling.DrainStep | lib/parallel.py:36-47 | one more completed task adds its log line, and its write when it returned |
| Parallel.EffectiveWorkers | lib/parallel.py:16 | defines `workers or 6`; stated by EffectiveWorkersSpec |
| Parallel.EffectiveWorkersSpec | lib/parallel.py:16 | None and 0 give 6 workers, any other count is kept, and the result is never 0 |
| Parallel.RunFormat | lib/parallel.py:42-47 | defines run's `[SUCCEEDED]`/`[FAILED]` log lines and its file names under prefix_dir; stated by Scheduling.DrainLogs and RunLogs |
| Parallel.OutputName | lib/parallel.py:47 | the file name is prefix + "_" + id, or the id alone for an empty prefix |
| Parallel.LoggerUndefined | lib/parallel.py:23-25 | the check as written and as intended reject the same lists, with NameError("logger") and TypeError respectively |
| Parallel.Submitted | lib/parallel.py:31-33 | one submitted future per task |
| Parallel.Run | lib/parallel.py:5-50 | as written, a non-Task item raises NameError("logger") before anything is submitted (see Findings); a negative worker count is refused by the pool; otherwise logs, writes and the propagated write error are those of the drain over the completion order |
| Parallel.DrainAll | lib/parallel.py:36-47 | the loop over the futures computes the drain specification |
| Parallel.RunLogs | lib/parallel.py:5-50 | with no failing write: one log line per task, each task's line once, in completion order, and every returned result written once |
| Exec.Execute | lib/exec.py:55-83 | an exception from starting the query or fetching its rows propagates unchanged; otherwise the table converted from the fetched rows, tagged with the name; no rows raise AttributeError on Name; conversion errors propagate |
| Exec.ColumnValues | lib/exec.py:42 | defines `df[col].tolist()`; stated by ColumnValuesOk |
| Exec.ParentValues | lib/exec.py:41-42 | defines the gathering of the parent columns; stated by ParentValuesOk, ParentValuesLength, ParentValuesBlock, ParentValuesLast and ParentValuesStops |
| Exec.IndexOf | lib/exec.py:42 | the position of the first column with that name |
| Exec.ColumnValuesOk | lib/exec.py:42 | one column is read iff there is a table in which the name occurs exactly once |
| Exec.ParentValuesOk | lib/exec.py:41-42 | gathering succeeds iff there is no column to gather, or every named column occurs exactly once in a table |
| Exec.ParentValuesLength | lib/exec.py:41-42 | gathering gives one value per row per named column |
| Exec.ParentValuesBlock | lib/exec.py:41-42 | block c of the gathered values is the c-th named column, top to bottom |
| Exec.ParentValuesLast | lib/exec.py:41-42 | gathering the columns is gathering all but the last, then the last |
| Exec.ParentValuesStops | lib/exec.py:41-42 | the first failing column ends the gathering with its error |
| Exec.ExecuteWithDependant | lib/exec.py:6-52 | service, conversion and column errors propagate with the attributes unchanged; otherwise the gathered values are stored as a list under the callback column (a KeyError when it is undeclared), and the callback's result on the updated attributes is returned |
| Exec.Slices | lib/exec.py:99-101 | defines the batches of batch_size tasks; stated by SlicesSpec and SlicesFrom |
| Exec.Completed | lib/exec.py:99-121 | defines the tasks in batch-completion order; stated by CompletedConcat, CompletedMultiset, CompletedPrefix and CompletedAt |
| Exec.SlicesSpec | lib/exec.py:99-101 | the batches are consecutive slices that together make up the list: each holds batch_size tasks except the last, which holds 1 to batch_size |
| Exec.SlicesFrom | lib/exec.py:99-101 | the batch starting at i is tasks[i:i+batch_size], clipped to the list |
| Exec.ValidOrderConcat | lib/exec.py:103-109 | completion orders for two runs of batches are orders for both runs together |
| Exec.ValidOrderSlice | lib/exec.py:103-109 | completion orders for a run of batches are orders for any consecutive part of it |
| Exec.CompletedConcat | lib/exec.py:99-121 | draining more batches appends their tasks, each batch in its own completion order |
| Exec.CompletedMultiset | lib/exec.py:99-121 | each task is drained exactly once, whatever the completion orders |
| Exec.CompletedPrefix | lib/exec.py:99-121 | after the first b batches comes batch b |
| Exec.CompletedAt | lib/exec.py:99-121 | batch b is drained after every earlier batch and before every later one |
| Exec.ExecStops | lib/exec.py:99-121 | a write that raises in batch b ends the run with the drain state at that point |
| Exec.DrainBatch | lib/exec.py:103-121 | draining one batch extends the drain over the earlier batches by that batch in its completion order |
| Exec.DrainBatches | lib/exec.py:99-121 | the loop over the batches computes the drain over all tasks in batch-completion order |
| Exec.ExecuteInParallel | lib/exec.py:85-122 | the batch size defaults to 3; a batch size of 0 raises range()'s ValueError; a negative batch size gives no logs; otherwise the result is the drain over the batches |
| Exec.ExecFormat | lib/exec.py:117-121 | defines execute_in_parallel's log lines and its writes under the task id; stated by Scheduling.DrainLogs and ExecLogs |
| Exec.ExecLogs | lib/exec.py:85-122 | with no failing write: exactly one log line per task, each task's line once, and every returned result written |
| QExec.ExecuteSpec | lib/qexec.py:68-96 | defines what execute returns or raises; its contract is stated by ExecuteOutcome and ExecuteBySql |
| QExec.ExecuteOutcome | lib/qexec.py:68-96 | the SQL sent is that of the query with LIMIT 50, in the poweruser workgroup; an exception from starting the query or from fetching its rows propagates unchanged; otherwise no rows give no table, a header cell without VarCharValue raises KeyError, and a table has the first row's width as header and one row per further row |
| QExec.ExecuteBySql | lib/qexec.py:79 | what execute returns depends on the query only through its rendered SQL |
| QExec.Execute | lib/qexec.py:68-96 | the method (start, wait, fetch, convert) returns or raises what ExecuteSpec says |
| QExec.NextQuery | lib/qexec.py:50-60 | defines the query a step sends; stated by NextQueryFilter and NextQueryErrors |
| QExec.Filter | lib/qexec.py:51-60 | defines the OR of LIKE criteria over the previous table's cells; stated by FilterShape and FilterCell |
| QExec.RunFrom | lib/qexec.py:41-63 | defines the loop of chained_execute from a given item on; stated by RunFromStep, RunFromAppendErr and RunFromAppendOk |
| QExec.Chain | lib/qexec.py:25-65 | defines chained_execute's outcome; stated by ChainLength, ChainAt, ChainSteps, ChainStepAt and LateTypeError |
| QExec.FilterShape | lib/qexec.py:51-60 | the filter is a left-nested OR with one LIKE leaf per cell of the table |
| QExec.FilterCell | lib/qexec.py:51-60 | the leaf at position j * rows + k is LIKE '%v%' on cell (k, j) |
| QExec.NextQueryFilter | lib/qexec.py:51-60 | a non-empty table with distinct columns and a dependant field filters the item's query by that table's criterion |
| QExec.NextQueryErrors | lib/qexec.py:50-60 | a step fails iff the previous table is non-empty and has a duplicated column (to_list) or the item has no field (like); with no table or an empty table, the query is sent unfiltered |
| QExec.RunFromStep | lib/qexec.py:41-63 | one step of the chain: type check, build, execute, continue |
| QExec.ChainLength | lib/qexec.py:41-65 | a chain without an exception sends one query and gets one table per item, and returns the last table |
| QExec.ChainAt | lib/qexec.py:41-63 | step k's item is a ChainedQuery, its query is built from the previous step's table, and its table is what executing that query returned |
| QExec.ChainSteps | lib/qexec.py:38-65 | chained_execute without an exception returns the last step's table, or None for no items |
| QExec.ChainStepAt | lib/qexec.py:41-63 | the first step sends its own query; each later step sends its query built from the previous step's table, and gets what executing it returns |
| QExec.RunFromAppendErr | lib/qexec.py:41-65 | an exception in a prefix ends the whole chain there |
| QExec.RunFromAppendOk | lib/qexec.py:41-65 | a prefix that runs fine is followed by the rest, starting from the prefix's last table |
| QExec.LateTypeError | lib/qexec.py:43-45 | a non-ChainedQuery item raises TypeError only after every query before it was sent |
| QExec.ChainedExecute | lib/qexec.py:25-65 | the loop returns the chain's outcome: the last table, or the first exception |
| QExec.BuildQuery | lib/qexec.py:50-60 | gathering the previous table column by column and calling in_with_regex gives the next query, as the filtering rule defines it |

## Left out

- Network and file I/O are not modelled: boto3's Athena client, `lib/io.py`'s `write`, and `print`. The service is an input, and a write is recorded as a `Written` value with a sink that may raise. `lib/io.py`, `lib/log.py`, `main.py`, `query/fields.py` and `scenarios/` are not part of this model.
- Concurrency is not modelled. Calls are sequential, so the locks guard nothing. A pool's completion order is an input permutation, and interleavings within a task are not modelled.
- Pypika's SQL rendering is an input (`getSql`). Its criteria and queries are kept as datatypes.
- Pandas is modelled only by the constructor's column-count rule, `df.empty`, and `df[col].tolist()` on unique and duplicated names. NaN is not distinguished from None.
- Exec.Execute: `df.Name = table_name` is modelled as tagging the table with a name. A data column that pandas would also call `Name` is not modelled.
- ThreadSafe.ThreadSafeWrapper.WithLock: the wrapper takes no arguments; the argument list of the wrapped call is left out.
- Exec.ExecuteWithDependant: the callback is a function of the updated attributes. Its side effects (it calls the generator and runs a query) are not modelled.
- Exec.ParentValuesBlock: the layout of the gathered values is stated per block of rows. There is no single closed-form formula for it.
- Exec.DrainBatches: range(0, len, batch_size) is walked by moving to the end of each slice. Up to the last slice this is the same index as adding batch_size.
- Parallel.Run: the pool's max_workers is used only for its refusal of non-positive values. The worker count does not change the order, which is an input.
- Tasks.Task.Run: `run` is not called by `lib/parallel.py`, which submits the callable itself. The model does the same.
- DataFrame.Convert: rows that are not lists (and `rows=None` other than empty) are not modelled. Only the service's shape of rows, each a list of optional cell values, is modelled.
- Athena.AthenaQueryExecutor.WaitForQueryToComplete: the status polls (`get_query_execution`) never raise in the model; only starting a query and fetching its rows can.
- DataFrame.Frame: the text of pandas' ValueError ("N columns passed, passed data had M columns") is not modelled; the model raises a ValueError with a fixed message, in exactly the cases pandas does.
- Athena.Fetched: whether the rows of an execution can be fetched is the service input's choice for that execution id. It is not tied to the status the polls reported.
- Athena.AthenaQueryExecutor.WaitForQueryToComplete: a status string that is not one of the three terminal names counts as pending, as in the code. Other fields of the response are not modelled.

## Findings

| source | as written | input that shows it | evidently intended | confidence | as-written member | corrected member |
|---|---|---|---|---|---|---|
| lib/parallel.py:23-25 | the check logs through `logger`, which the module never defines, so a NameError is raised before the `raise TypeError` | a tasks list holding one item that is not a Task | raise TypeError for an item that is not a Task | not executed | Parallel.TypeCheckAsWritten | Parallel.TypeCheck |
