/** lib/qexec.py: a chain of Pypika queries where each query after the
    first is filtered by the values of the table the previous one
    returned. Pypika queries are modelled by the datatype Query, which
    keeps the operations the chain applies to them; rendering a query to
    SQL is an input (`getSql`), as is the query service. */
module QExec {
  import opened Common
  import opened DataFrame
  import opened Athena
  import opened Conditions

  /** A Pypika query: a base query, the same query with one more WHERE
      criterion, or the same query with a LIMIT. */
  datatype Query = Source(table: string) | Where(query: Query, criterion: Cond) | Limit(query: Query, n: nat)

  /** A ChainedQuery: its query and optional dependant field. */
  datatype ChainedQuery = ChainedQuery(query: Query, dependantField: Option<string> := None)

  /** An element of the `queries` list: a ChainedQuery, or anything else. */
  datatype Item = Chained(chained: ChainedQuery) | NotChained

  /** A table as convert_results_to_df builds it: every row as wide as the
      header. */
  type Frame = t: Table | WellFormed(t) witness Table([], [])

  /** The query service and Pypika's SQL rendering. */
  datatype Env = Env(svc: Service, getSql: Query -> string)

  /** The LIMIT execute puts on every query of a chain. */
  const RowLimit := 50

  /** What execute(query) returns or raises: the table of the rows fetched
      for the query limited to 50 rows, or no table for no rows. */
  function ExecuteSpec(q: Query, env: Env): (r: Result<Option<Frame>>)
  {
    match Fetched(env.svc, env.getSql(Limit(q, RowLimit)))
    case Err(e) => Err(e)
    case Ok(rows) =>
      match Convert(rows)
      case Err(e) => Err(e)
      case Ok(None) => Ok(None)
      case Ok(Some(t)) => Ok(Some(t))
  }

  /** The statement sent is the query's SQL with LIMIT 50, in the poweruser
      workgroup. An exception starting it or fetching its rows propagates
      unchanged. Otherwise no rows give no table, a header cell without a
      value is a KeyError, and a table has the first row's names as header
      and one row per further row. */
  lemma ExecuteOutcome(q: Query, env: Env)
    ensures var started := env.svc.start(env.getSql(Limit(q, RowLimit)), PowerUser);
      && (started.Err? ==> ExecuteSpec(q, env) == Err(started.error))
      && (started.Ok? && env.svc.results(Some(started.value)).Err? ==>
            ExecuteSpec(q, env) == Err(env.svc.results(Some(started.value)).error))
      && (started.Ok? && env.svc.results(Some(started.value)).Ok? ==>
            var rows := env.svc.results(Some(started.value)).value;
            && (ExecuteSpec(q, env) == Ok(None) <==> |rows| == 0)
            && (|rows| > 0 && HeaderCellMissing(rows[0]) ==> ExecuteSpec(q, env) == Err(KeyError("VarCharValue")))
            && (ExecuteSpec(q, env).Ok? && ExecuteSpec(q, env).value.Some? ==>
                  && |ExecuteSpec(q, env).value.value.header| == |rows[0].data|
                  && |ExecuteSpec(q, env).value.value.rows| == |rows| - 1))
  {
    var started := env.svc.start(env.getSql(Limit(q, RowLimit)), PowerUser);
    if started.Ok? && env.svc.results(Some(started.value)).Ok? {
      ConvertSpec(env.svc.results(Some(started.value)).value);
    }
  }

  /** Two queries that render to the same SQL are executed alike. */
  lemma ExecuteBySql(q1: Query, q2: Query, env: Env)
    requires env.getSql(Limit(q1, RowLimit)) == env.getSql(Limit(q2, RowLimit))
    ensures ExecuteSpec(q1, env) == ExecuteSpec(q2, env)
  {
  }

  /** execute(query). */
  method Execute(q: Query, env: Env) returns (r: Result<Option<Frame>>)
    ensures r == ExecuteSpec(q, env)
  {
    var sql := env.getSql(Limit(q, RowLimit));
    var executor := new AthenaQueryExecutor();
    var started := executor.ExecuteQuery(sql, env.svc.start);
    if started.Err? {
      return Err(started.error);
    }
    var _ := executor.WaitForQueryToComplete(env.svc.state);
    var rows := executor.GetQueryResults(env.svc.results);
    if rows.Err? {
      return Err(rows.error);
    }
    var df := ConvertResultsToDf(rows.value);
    match df {
      case Err(e) => r := Err(e);
      case Ok(None) => r := Ok(None);
      case Ok(Some(t)) => r := Ok(Some(t));
    }
  }

  /** The query a chained item sends, given the table the previous step
      returned: the item's own query when there is no table or it is
      empty; otherwise that query filtered by a LIKE criterion per value
      of the table, column by column. Reading a duplicated column fails
      (`to_list` on a frame), and so does filtering on no field. */
  function NextQuery(cq: ChainedQuery, prior: Option<Frame>): Result<Query>
  {
    if prior.None? || Empty(prior.value) then Ok(cq.query)
    else if HasDuplicateColumn(prior.value.header) then Err(AttributeError("to_list"))
    else if cq.dependantField.None? then Err(AttributeError("like"))
    else Ok(Where(cq.query, Filter(cq.dependantField.value, prior.value)))
  }

  /** The criterion on a field built from every value of a non-empty
      table, column by column: one LIKE '%v%' per value, OR-ed together. */
  function Filter(field: string, t: Frame): Cond
    requires !Empty(t)
  {
    AllColumnValuesNonEmpty(t);
    LeftOr(LikeConds(field, AllColumnValues(t)))
  }

  /** The filter is a left-nested OR whose leaves are the LIKE criteria
      of the table's values in order, one per cell. */
  lemma FilterShape(field: string, t: Frame)
    requires !Empty(t)
    ensures LeftNested(Filter(field, t))
    ensures Leaves(Filter(field, t)) == LikeConds(field, AllColumnValues(t))
    ensures |Leaves(Filter(field, t))| == |t.header| * |t.rows|
  {
    AllColumnValuesNonEmpty(t);
    LeftOrShape(LikeConds(field, AllColumnValues(t)));
  }

  /** The leaf of cell (k, j), at position j * rows + k, is LIKE '%v%' on
      that cell's value. */
  lemma FilterCell(field: string, t: Frame, j: nat, k: nat)
    requires !Empty(t)
    requires j < |t.header| && k < |t.rows|
    ensures j * |t.rows| + k < |Leaves(Filter(field, t))|
    ensures Leaves(Filter(field, t))[j * |t.rows| + k] == Like(field, "%" + Str(t.rows[k][j]) + "%")
  {
    FilterShape(field, t);
    ColumnsUpToCell(t, |t.header|, j, k);
  }

  /** A non-empty table with distinct column names and a field to filter
      on gives the item's query filtered by that table's criterion. */
  lemma NextQueryFilter(cq: ChainedQuery, t: Frame)
    requires cq.dependantField.Some?
    requires !Empty(t) && !HasDuplicateColumn(t.header)
    ensures NextQuery(cq, Some(t)) == Ok(Where(cq.query, Filter(cq.dependantField.value, t)))
  {
  }

  /** The three ways a chained step can refuse to send its query, and the
      unfiltered query when there is nothing to filter by. */
  lemma NextQueryErrors(cq: ChainedQuery, prior: Option<Frame>)
    ensures NextQuery(cq, prior).Err? <==>
              prior.Some? && !Empty(prior.value)
              && (HasDuplicateColumn(prior.value.header) || cq.dependantField.None?)
    ensures prior.None? || Empty(prior.value) ==> NextQuery(cq, prior) == Ok(cq.query)
    ensures NextQuery(cq, prior).Err? && HasDuplicateColumn(prior.value.header) ==>
              NextQuery(cq, prior) == Err(AttributeError("to_list"))
    ensures NextQuery(cq, prior).Err? && !HasDuplicateColumn(prior.value.header) ==>
              NextQuery(cq, prior) == Err(AttributeError("like"))
  {
  }

  /** What execute(query) returns for each query. */
  type Executor<F> = Query -> Result<Option<F>>

  /** How each step's query is built from its item and the previous table. */
  type Planner<!F> = (ChainedQuery, Option<F>) -> Result<Query>

  /** The queries sent, the table (or no table) each returned, and how the
      chain ended: with the last table, or with an exception. */
  datatype ChainRun<F> = ChainRun(sent: seq<Query>, tables: seq<Option<F>>, outcome: Result<Option<F>>)

  /** The chain from a given previous table: each item is checked, its
      query built and executed in turn; the first exception ends it. */
  function RunFrom<F>(items: seq<Item>, exec: Executor<F>, plan: Planner<F>, prior: Option<F>): ChainRun<F>
    decreases |items|
  {
    if |items| == 0 then ChainRun([], [], Ok(prior))
    else if items[0].NotChained? then ChainRun([], [], Err(TypeError("")))
    else
      match plan(items[0].chained, prior)
      case Err(e) => ChainRun([], [], Err(e))
      case Ok(q) =>
        if exec(q).Err? then ChainRun([q], [], Err(exec(q).error))
        else
          var rest := RunFrom(items[1..], exec, plan, exec(q).value);
          ChainRun([q] + rest.sent, [exec(q).value] + rest.tables, rest.outcome)
  }

  /** Each query run through the service and converted. */
  function Executed(env: Env): Executor<Frame>
  {
    q => ExecuteSpec(q, env)
  }

  /** Each step's query built by NextQuery. */
  function Planned(): Planner<Frame>
  {
    (cq, prior) => NextQuery(cq, prior)
  }

  /** chained_execute(queries), starting with no table. */
  function Chain(items: seq<Item>, env: Env): ChainRun<Frame>
  {
    RunFrom(items, Executed(env), Planned(), None)
  }

  /** One step of the chain from position i. */
  lemma RunFromStep<F>(items: seq<Item>, i: nat, exec: Executor<F>, plan: Planner<F>, prior: Option<F>)
    requires i < |items|
    ensures var run := RunFrom(items[i..], exec, plan, prior);
      && (items[i].NotChained? ==> run == ChainRun([], [], Err(TypeError(""))))
      && (items[i].Chained? ==>
            var next := plan(items[i].chained, prior);
            && (next.Err? ==> run == ChainRun([], [], Err(next.error)))
            && (next.Ok? ==>
                  var df := exec(next.value);
                  && (df.Err? ==> run == ChainRun([next.value], [], Err(df.error)))
                  && (df.Ok? ==>
                        var rest := RunFrom(items[i + 1..], exec, plan, df.value);
                        run == ChainRun([next.value] + rest.sent, [df.value] + rest.tables, rest.outcome))))
  {
    assert items[i..][0] == items[i];
    assert items[i..][1..] == items[i + 1..];
  }

  /** The table before step k: the starting one, then each step's own. */
  function Before<F>(prior: Option<F>, tables: seq<Option<F>>, k: nat): Option<F>
    requires k <= |tables|
  {
    if k == 0 then prior else tables[k - 1]
  }

  /** A chain that ends without an exception sent one query and got one
      table per item, and returns the last table, or the starting one for
      no items. */
  lemma {:induction false} ChainLength<F>(items: seq<Item>, exec: Executor<F>, plan: Planner<F>, prior: Option<F>)
    ensures var run := RunFrom(items, exec, plan, prior);
      run.outcome.Ok? ==>
        && |run.sent| == |run.tables| == |items|
        && run.outcome.value == Before(prior, run.tables, |items|)
    decreases |items|
  {
    var run := RunFrom(items, exec, plan, prior);
    if |items| > 0 && run.outcome.Ok? {
      var df := exec(plan(items[0].chained, prior).value).value;
      ChainLength(items[1..], exec, plan, df);
    }
  }

  /** Step k of a chain that ends without an exception: its item was a
      ChainedQuery, its query was built from the table of the step before,
      and its table is what executing that query returned. */
  lemma {:induction false} ChainAt<F>(items: seq<Item>, exec: Executor<F>, plan: Planner<F>, prior: Option<F>, k: nat)
    requires k < |items| && RunFrom(items, exec, plan, prior).outcome.Ok?
    ensures var run := RunFrom(items, exec, plan, prior);
      && k < |run.sent| && k < |run.tables|
      && items[k].Chained?
      && exec(run.sent[k]) == Ok(run.tables[k])
      && plan(items[k].chained, Before(prior, run.tables, k)) == Ok(run.sent[k])
    decreases k
  {
    var run := RunFrom(items, exec, plan, prior);
    ChainLength(items, exec, plan, prior);
    var q := plan(items[0].chained, prior).value;
    var df := exec(q).value;
    var rest := RunFrom(items[1..], exec, plan, df);
    assert run.sent == [q] + rest.sent && run.tables == [df] + rest.tables;
    if k > 0 {
      ChainAt(items[1..], exec, plan, df, k - 1);
      assert items[1..][k - 1] == items[k];
      assert Before(prior, run.tables, k) == Before(df, rest.tables, k - 1);
    }
  }

  /** chained_execute(queries) without an exception: one query sent and
      one table returned per item; the result is the last table, or no
      table for no items. */
  lemma ChainSteps(items: seq<Item>, env: Env)
    ensures var run := Chain(items, env);
      run.outcome.Ok? ==>
        && |run.sent| == |run.tables| == |items|
        && run.outcome.value == (if |items| == 0 then None else run.tables[|items| - 1])
  {
    ChainLength(items, Executed(env), Planned(), None);
  }

  /** Step k of a chain that ends without an exception: its item is a
      ChainedQuery; its query is the item's own for the first step, and
      for each later one the item's query built from the table the step
      before returned; its table is what executing that query returned. */
  lemma ChainStepAt(items: seq<Item>, env: Env, k: nat)
    requires k < |items| && Chain(items, env).outcome.Ok?
    ensures var run := Chain(items, env);
      && k < |run.sent| && k < |run.tables|
      && items[k].Chained?
      && ExecuteSpec(run.sent[k], env) == Ok(run.tables[k])
      && (k == 0 ==> run.sent[0] == items[0].chained.query)
      && (k > 0 ==> NextQuery(items[k].chained, run.tables[k - 1]) == Ok(run.sent[k]))
  {
    var run := Chain(items, env);
    ChainAt(items, Executed(env), Planned(), None, k);
    assert Planned()(items[k].chained, Before(None, run.tables, k)) == Ok(run.sent[k]);
    if k == 0 {
      NextQueryErrors(items[0].chained, None);
    }
  }

  /** An exception while running a prefix ends the whole chain there,
      with what the prefix sent. */
  lemma {:induction false} RunFromAppendErr<F>(front: seq<Item>, back: seq<Item>, exec: Executor<F>, plan: Planner<F>, prior: Option<F>)
    requires RunFrom(front, exec, plan, prior).outcome.Err?
    ensures RunFrom(front + back, exec, plan, prior) == RunFrom(front, exec, plan, prior)
    decreases |front|
  {
    var all := front + back;
    assert all[0] == front[0];
    assert all[1..] == front[1..] + back;
    if front[0].Chained? && plan(front[0].chained, prior).Ok? {
      var q := plan(front[0].chained, prior).value;
      if exec(q).Ok? {
        RunFromAppendErr(front[1..], back, exec, plan, exec(q).value);
      }
    }
  }

  /** Running a list whose prefix runs without an exception is running the
      prefix, then the rest from the prefix's last table. */
  lemma {:induction false} RunFromAppendOk<F>(front: seq<Item>, back: seq<Item>, exec: Executor<F>, plan: Planner<F>, prior: Option<F>)
    requires RunFrom(front, exec, plan, prior).outcome.Ok?
    ensures var p := RunFrom(front, exec, plan, prior);
      var r := RunFrom(back, exec, plan, p.outcome.value);
      RunFrom(front + back, exec, plan, prior) == ChainRun(p.sent + r.sent, p.tables + r.tables, r.outcome)
    decreases |front|
  {
    if |front| == 0 {
      assert front + back == back;
    } else {
      var all := front + back;
      assert all[0] == front[0] && all[1..] == front[1..] + back;
      var q, df := RunFromHead(front, exec, plan, prior);
      var p := RunFrom(front[1..], exec, plan, df);
      RunFromAppendOk(front[1..], back, exec, plan, df);
      var r := RunFrom(back, exec, plan, p.outcome.value);
      RunFromCons(all, exec, plan, prior, q, df);
      PrependAssoc(q, p.sent, r.sent);
      PrependAssoc(df, p.tables, r.tables);
    }
  }

  /** The first step of a chain that got past its first item: the query
      it sent and the table it got. */
  lemma RunFromHead<F>(items: seq<Item>, exec: Executor<F>, plan: Planner<F>, prior: Option<F>)
    returns (q: Query, df: Option<F>)
    requires |items| > 0 && RunFrom(items, exec, plan, prior).outcome.Ok?
    ensures items[0].Chained? && plan(items[0].chained, prior) == Ok(q) && exec(q) == Ok(df)
    ensures var rest := RunFrom(items[1..], exec, plan, df);
      RunFrom(items, exec, plan, prior) == ChainRun([q] + rest.sent, [df] + rest.tables, rest.outcome)
  {
    q := plan(items[0].chained, prior).value;
    df := exec(q).value;
  }

  /** A chain whose first item is sent and executed without an exception
      continues from the table that came back. */
  lemma RunFromCons<F>(items: seq<Item>, exec: Executor<F>, plan: Planner<F>, prior: Option<F>, q: Query, df: Option<F>)
    requires |items| > 0 && items[0].Chained? && plan(items[0].chained, prior) == Ok(q) && exec(q) == Ok(df)
    ensures var rest := RunFrom(items[1..], exec, plan, df);
      RunFrom(items, exec, plan, prior) == ChainRun([q] + rest.sent, [df] + rest.tables, rest.outcome)
  {
  }

  lemma PrependAssoc<X>(x: X, a: seq<X>, b: seq<X>)
    ensures [x] + (a + b) == ([x] + a) + b
  {
  }

  /** The type check happens item by item: an item that is not a
      ChainedQuery after a prefix that ran fine raises a TypeError, but
      only after every query of the prefix was sent. */
  lemma LateTypeError(front: seq<Item>, back: seq<Item>, env: Env)
    requires |back| > 0 && back[0].NotChained?
    requires Chain(front, env).outcome.Ok?
    ensures Chain(front + back, env) == ChainRun(Chain(front, env).sent, Chain(front, env).tables, Err(TypeError("")))
  {
    RunFromAppendOk(front, back, Executed(env), Planned(), None);
    assert Chain(front, env).sent + [] == Chain(front, env).sent;
    assert Chain(front, env).tables + [] == Chain(front, env).tables;
  }

  /** chained_execute(queries): runs the chain item by item; returns the
      last table, or raises the first exception. */
  method ChainedExecute(items: seq<Item>, env: Env) returns (r: Result<Option<Frame>>)
    ensures r == Chain(items, env).outcome
  {
    var df: Option<Frame> := None;
    ghost var exec := Executed(env);
    ghost var plan := Planned();
    assert items[0..] == items;
    for i := 0 to |items|
      invariant RunFrom(items[i..], exec, plan, df).outcome == Chain(items, env).outcome
    {
      RunFromStep(items, i, exec, plan, df);
      if items[i].NotChained? {
        return Err(TypeError(""));
      }
      var next := BuildQuery(items[i].chained, df);
      assert plan(items[i].chained, df) == next;
      if next.Err? {
        return Err(next.error);
      }
      var result := Execute(next.value, env);
      assert exec(next.value) == result;
      if result.Err? {
        return Err(result.error);
      }
      df := result.value;
    }
    assert items[|items|..] == [];
    r := Ok(df);
  }

  /** The body of one step of chained_execute before execution: the
      column values of the previous table are gathered column by column,
      then turned into the criterion that filters the item's query. */
  method BuildQuery(cq: ChainedQuery, df: Option<Frame>) returns (r: Result<Query>)
    ensures r == NextQuery(cq, df)
  {
    if df.None? || Empty(df.value) {
      return Ok(cq.query);
    }
    var t := df.value;
    var values: seq<Value> := [];
    for j := 0 to |t.header|
      invariant values == ColumnsUpTo(t, j)
      invariant forall a, b :: 0 <= a < j && 0 <= b < |t.header| && a != b ==> t.header[a] != t.header[b]
    {
      if exists b :: 0 <= b < |t.header| && b != j && t.header[b] == t.header[j] {
        return Err(AttributeError("to_list"));
      }
      values := values + Column(t, j);
    }
    assert !HasDuplicateColumn(t.header);
    if cq.dependantField.None? {
      return Err(AttributeError("like"));
    }
    AllColumnValuesNonEmpty(t);
    var combined := InWithRegex(cq.dependantField.value, Many(values));
    CombinedUnique(cq.dependantField.value, Many(values), combined.value);
    r := Ok(Where(cq.query, combined.value));
  }
}
