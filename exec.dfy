/** lib/exec.py: running one query into a named table, running a parent
    query whose column values parameterise a child query, and running
    tasks in batches on a pool. The query service, the callback, the
    tasks' callables, the pools' completion orders and the write sink are
    inputs. */
module Exec {
  import opened Common
  import opened DataFrame
  import opened Athena
  import opened ThreadSafe
  import opened Scheduling

  /** A table with the `Name` attribute execute sets on it. */
  datatype NamedTable = NamedTable(table: Table, name: string)

  /** execute(query, table_name): runs the query and tags the table with
      the name; a result without rows has no table to tag, and an exception
      of the service client propagates. */
  method Execute(svc: Service, query: string, tableName: string := "") returns (r: Result<NamedTable>)
    ensures Fetched(svc, query).Err? ==> r == Err(Fetched(svc, query).error)
    ensures Fetched(svc, query).Ok? ==>
              var parent := Convert(Fetched(svc, query).value);
              && (parent.Err? ==> r == Err(parent.error))
              && (parent == Ok(None) ==> r == Err(AttributeError("Name")))
              && (parent.Ok? && parent.value.Some? ==> r == Ok(NamedTable(parent.value.value, tableName)))
  {
    var executor := new AthenaQueryExecutor();
    var started := executor.ExecuteQuery(query, svc.start);
    if started.Err? {
      return Err(started.error);
    }
    var _ := executor.WaitForQueryToComplete(svc.state);
    var rows := executor.GetQueryResults(svc.results);
    if rows.Err? {
      return Err(rows.error);
    }
    var df := ConvertResultsToDf(rows.value);
    match df {
      case Err(e) => r := Err(e);
      case Ok(None) => r := Err(AttributeError("Name"));
      case Ok(Some(t)) => r := Ok(NamedTable(t, tableName));
    }
  }

  /** The position of the first column called col. */
  function IndexOf(header: seq<string>, col: string): (j: nat)
    requires col in header
    ensures j < |header| && header[j] == col
    ensures forall i :: 0 <= i < j ==> header[i] != col
  {
    if header[0] == col then 0 else 1 + IndexOf(header[1..], col)
  }

  /** df[col] is a single column: the name occurs exactly once. */
  predicate UniqueColumn(header: seq<string>, col: string)
  {
    col in header && forall i :: 0 <= i < |header| && header[i] == col ==> i == IndexOf(header, col)
  }

  /** df[col].tolist(): a TypeError on no table, a KeyError for a missing
      column, an AttributeError when the name is duplicated (df[col] is
      then a frame), otherwise the column top to bottom. */
  function ColumnValues(df: Option<Table>, col: string): Result<seq<Value>>
    requires df.Some? ==> WellFormed(df.value)
  {
    if df.None? then Err(TypeError("'NoneType' object is not subscriptable"))
    else if col !in df.value.header then Err(KeyError(col))
    else if !UniqueColumn(df.value.header, col) then Err(AttributeError("tolist"))
    else Ok(Column(df.value, IndexOf(df.value.header, col)))
  }

  /** The values gathered from the parent table, column after column. */
  function ParentValues(df: Option<Table>, cols: seq<string>): Result<seq<Value>>
    requires df.Some? ==> WellFormed(df.value)
    decreases |cols|
  {
    if |cols| == 0 then Ok([])
    else
      match ParentValues(df, cols[..|cols| - 1])
      case Err(e) => Err(e)
      case Ok(vs) =>
        match ColumnValues(df, cols[|cols| - 1])
        case Err(e) => Err(e)
        case Ok(c) => Ok(vs + c)
  }

  /** One column is gathered iff there is a table in which the name
      occurs exactly once. */
  lemma ColumnValuesOk(df: Option<Table>, col: string)
    requires df.Some? ==> WellFormed(df.value)
    ensures ColumnValues(df, col).Ok? <==> df.Some? && UniqueColumn(df.value.header, col)
  {
  }

  /** The gathering succeeds iff there are no columns to gather or every
      named column occurs exactly once in a table. */
  lemma {:induction false} ParentValuesOk(df: Option<Table>, cols: seq<string>)
    requires df.Some? ==> WellFormed(df.value)
    ensures ParentValues(df, cols).Ok? <==>
              |cols| == 0 || (df.Some? && forall c :: 0 <= c < |cols| ==> UniqueColumn(df.value.header, cols[c]))
    decreases |cols|
  {
    if |cols| > 0 {
      var init := cols[..|cols| - 1];
      ParentValuesOk(df, init);
      ColumnValuesOk(df, cols[|cols| - 1]);
      assert forall c :: 0 <= c < |init| ==> init[c] == cols[c];
      if df.Some? && ParentValues(df, init).Ok? && UniqueColumn(df.value.header, cols[|cols| - 1]) {
        forall c | 0 <= c < |cols| ensures UniqueColumn(df.value.header, cols[c]) {
          if c < |init| {
            assert init[c] == cols[c];
          }
        }
      }
    }
  }

  /** A successful gathering holds one value per row for each named
      column. */
  lemma {:induction false} ParentValuesLength(t: Table, cols: seq<string>)
    requires WellFormed(t) && ParentValues(Some(t), cols).Ok?
    ensures |ParentValues(Some(t), cols).value| == |cols| * |t.rows|
    decreases |cols|
  {
    if |cols| > 0 {
      ParentValuesLength(t, cols[..|cols| - 1]);
      assert |cols| * |t.rows| == (|cols| - 1) * |t.rows| + |t.rows|;
    }
  }

  /** The c-th block of rows values is the c-th named column, top to
      bottom. */
  lemma {:induction false} ParentValuesBlock(t: Table, cols: seq<string>, c: nat)
    requires WellFormed(t) && ParentValues(Some(t), cols).Ok? && c < |cols|
    ensures cols[c] in t.header
    ensures (c + 1) * |t.rows| <= |ParentValues(Some(t), cols).value|
    ensures ParentValues(Some(t), cols).value[c * |t.rows|..(c + 1) * |t.rows|]
            == Column(t, IndexOf(t.header, cols[c]))
    decreases |cols|
  {
    var R := |t.rows|;
    var n := |cols|;
    var init := cols[..n - 1];
    ParentValuesLength(t, cols);
    ParentValuesLength(t, init);
    var col := cols[n - 1];
    ParentValuesLast(t, cols);
    var prev := ParentValues(Some(t), init).value;
    BlockBounds(c, n, R);
    var lo: nat, hi: nat := c * R, (c + 1) * R;
    if c < n - 1 {
      ParentValuesBlock(t, init, c);
      assert init[c] == cols[c];
      SliceOfFront(prev, Column(t, IndexOf(t.header, col)), lo, hi);
    } else {
      assert lo == |prev|;
      SliceOfBack(prev, Column(t, IndexOf(t.header, col)));
    }
  }

  /** A successful gathering of several columns is the gathering of all
      but the last, then the last column. */
  lemma ParentValuesLast(t: Table, cols: seq<string>)
    requires WellFormed(t) && ParentValues(Some(t), cols).Ok? && |cols| > 0
    ensures cols[|cols| - 1] in t.header
    ensures ParentValues(Some(t), cols[..|cols| - 1]).Ok?
    ensures ParentValues(Some(t), cols).value
            == ParentValues(Some(t), cols[..|cols| - 1]).value + Column(t, IndexOf(t.header, cols[|cols| - 1]))
  {
  }

  lemma SliceOfFront<X>(a: seq<X>, b: seq<X>, lo: nat, hi: nat)
    requires lo <= hi <= |a|
    ensures (a + b)[lo..hi] == a[lo..hi]
  {
  }

  lemma SliceOfBack<X>(a: seq<X>, b: seq<X>)
    ensures (a + b)[|a|..|a| + |b|] == b
  {
  }

  /** Block c of n blocks of R values starts at c * R and ends R later,
      within the n * R values; the last block starts after n - 1 blocks. */
  lemma BlockBounds(c: nat, n: nat, R: nat)
    requires c < n
    ensures 0 <= c * R
    ensures (c + 1) * R == c * R + R
    ensures c * R + R <= n * R
    ensures (n - 1) * R + R == n * R
  {
    MulStep(c, n, R);
  }

  /** execute_with_dependant: runs the parent query, gathers the named
      columns of its table, stores them as a list under callback_column,
      then returns what the callback returns, evaluated on the updated
      parameters. */
  method ExecuteWithDependant<R>(store: ThreadSafeWrapper, svc: Service, dependantQuery: string,
                                 dependantColumns: seq<string>,
                                 callback: Option<map<string, Param>> -> Result<R>, callbackColumn: string)
    returns (r: Result<R>)
    modifies store
    ensures Fetched(svc, dependantQuery).Err? ==>
              r == Err(Fetched(svc, dependantQuery).error) && store.attributes == old(store.attributes)
    ensures Fetched(svc, dependantQuery).Ok? ==>
      var parent := Convert(Fetched(svc, dependantQuery).value);
      && (parent.Err? ==> r == Err(parent.error) && store.attributes == old(store.attributes))
      && (parent.Ok? ==>
            (ConvertSpec(Fetched(svc, dependantQuery).value);
             var gathered := ParentValues(parent.value, dependantColumns);
             && (gathered.Err? ==> r == Err(gathered.error) && store.attributes == old(store.attributes))
             && (gathered.Ok? ==>
                   var stored := SetAttr(old(store.attributes), callbackColumn, List(gathered.value));
                   && (stored.Err? ==> r == Err(stored.error) && store.attributes == old(store.attributes))
                   && (stored.Ok? ==> store.attributes == Some(stored.value) && r == callback(Some(stored.value))))))
  {
    var executor := new AthenaQueryExecutor();
    var started := executor.ExecuteQuery(dependantQuery, svc.start);
    if started.Err? {
      return Err(started.error);
    }
    var _ := executor.WaitForQueryToComplete(svc.state);
    var fetched := executor.GetQueryResults(svc.results);
    if fetched.Err? {
      return Err(fetched.error);
    }
    var parentResult := fetched.value;
    var converted := ConvertResultsToDf(parentResult);
    if converted.Err? {
      return Err(converted.error);
    }
    ConvertSpec(parentResult);
    var parentDf := converted.value;
    var columnValues: seq<Value> := [];
    for i := 0 to |dependantColumns|
      invariant ParentValues(parentDf, dependantColumns[..i]) == Ok(columnValues)
    {
      assert dependantColumns[..i + 1][..i] == dependantColumns[..i];
      var values := ColumnValues(parentDf, dependantColumns[i]);
      if values.Err? {
        assert ParentValues(parentDf, dependantColumns[..i + 1]) == Err(values.error);
        ParentValuesStops(parentDf, dependantColumns, i + 1);
        return Err(values.error);
      }
      columnValues := columnValues + values.value;
    }
    assert dependantColumns[..|dependantColumns|] == dependantColumns;
    var stored := store.SetDependantAttr(callbackColumn, List(columnValues));
    if stored.Err? {
      return Err(stored.error);
    }
    r := callback(store.attributes);
  }

  /** A gathering that failed on a prefix of the columns fails the same way
      on all of them. */
  lemma {:induction false} ParentValuesStops(df: Option<Table>, cols: seq<string>, n: nat)
    requires df.Some? ==> WellFormed(df.value)
    requires n <= |cols| && ParentValues(df, cols[..n]).Err?
    ensures ParentValues(df, cols) == ParentValues(df, cols[..n])
    decreases |cols| - n
  {
    if n < |cols| {
      assert cols[..|cols| - 1][..n] == cols[..n];
      ParentValuesStops(df, cols[..|cols| - 1], n);
    } else {
      assert cols[..n] == cols;
    }
  }

  /** tasks[i:i + size] for i = 0, size, 2 * size, ... */
  function Slices<X>(xs: seq<X>, size: nat): seq<seq<X>>
    requires size > 0
    decreases |xs|
  {
    if |xs| == 0 then []
    else if |xs| <= size then [xs]
    else [xs[..size]] + Slices(xs[size..], size)
  }

  function Concat<X>(ss: seq<seq<X>>): seq<X>
    decreases |ss|
  {
    if |ss| == 0 then [] else ss[0] + Concat(ss[1..])
  }

  /** The batches are consecutive slices in list order that together are
      the whole list; all hold `size` tasks but the last, which holds
      between one and `size`. */
  lemma {:induction false} SlicesSpec<X>(xs: seq<X>, size: nat)
    requires size > 0
    ensures Concat(Slices(xs, size)) == xs
    ensures forall b :: 0 <= b < |Slices(xs, size)| - 1 ==> |Slices(xs, size)[b]| == size
    ensures |Slices(xs, size)| > 0 ==> 0 < |Slices(xs, size)[|Slices(xs, size)| - 1]| <= size
    ensures |Slices(xs, size)| == 0 <==> |xs| == 0
    decreases |xs|
  {
    if |xs| > size {
      SlicesSpec(xs[size..], size);
      var rest := Slices(xs[size..], size);
      assert Slices(xs, size) == [xs[..size]] + rest;
      assert ([xs[..size]] + rest)[1..] == rest;
      assert xs[..size] + xs[size..] == xs;
    } else if |xs| > 0 {
      assert Concat([xs]) == xs + Concat([]);
    }
  }

  /** Each batch has a completion order of its own. */
  predicate ValidOrder<X>(slices: seq<seq<X>>, order: seq<seq<nat>>)
  {
    |order| == |slices| && forall b :: 0 <= b < |slices| ==> IsPerm(order[b], |slices[b]|)
  }

  /** The tasks in the order they are drained: batch after batch, each
      batch in its own completion order. */
  function Completed<X>(slices: seq<seq<X>>, order: seq<seq<nat>>): seq<X>
    requires ValidOrder(slices, order)
    decreases |slices|
  {
    if |slices| == 0 then []
    else Permuted(slices[0], order[0]) + Completed(slices[1..], order[1..])
  }

  /** Orders for two runs of batches are orders for the batches of both. */
  lemma ValidOrderConcat<X>(s1: seq<seq<X>>, o1: seq<seq<nat>>, s2: seq<seq<X>>, o2: seq<seq<nat>>)
    requires ValidOrder(s1, o1) && ValidOrder(s2, o2)
    ensures ValidOrder(s1 + s2, o1 + o2)
  {
    forall b | 0 <= b < |s1 + s2|
      ensures IsPerm((o1 + o2)[b], |(s1 + s2)[b]|)
    {
      if b < |s1| {
        assert (o1 + o2)[b] == o1[b] && (s1 + s2)[b] == s1[b];
      } else {
        assert (o1 + o2)[b] == o2[b - |s1|] && (s1 + s2)[b] == s2[b - |s1|];
      }
    }
  }

  /** Orders for a run of batches are orders for any consecutive part of
      it. */
  lemma ValidOrderSlice<X>(slices: seq<seq<X>>, order: seq<seq<nat>>, lo: nat, hi: nat)
    requires ValidOrder(slices, order) && lo <= hi <= |slices|
    ensures ValidOrder(slices[lo..hi], order[lo..hi])
  {
    forall k | 0 <= k < hi - lo
      ensures IsPerm(order[lo..hi][k], |slices[lo..hi][k]|)
    {
      assert order[lo..hi][k] == order[lo + k] && slices[lo..hi][k] == slices[lo + k];
    }
  }

  /** Completing more batches appends their tasks, each batch in its own
      order. */
  lemma {:induction false} CompletedConcat<X>(s1: seq<seq<X>>, o1: seq<seq<nat>>, s2: seq<seq<X>>, o2: seq<seq<nat>>)
    requires ValidOrder(s1, o1) && ValidOrder(s2, o2)
    ensures ValidOrder(s1 + s2, o1 + o2)
    ensures Completed(s1 + s2, o1 + o2) == Completed(s1, o1) + Completed(s2, o2)
    decreases |s1|
  {
    ValidOrderConcat(s1, o1, s2, o2);
    if |s1| == 0 {
      assert s1 + s2 == s2 && o1 + o2 == o2;
    } else {
      ValidOrderSlice(s1, o1, 1, |s1|);
      assert s1[1..|s1|] == s1[1..] && o1[1..|o1|] == o1[1..];
      CompletedConcat(s1[1..], o1[1..], s2, o2);
      assert (s1 + s2)[1..] == s1[1..] + s2;
      assert (o1 + o2)[1..] == o1[1..] + o2;
      assert (s1 + s2)[0] == s1[0] && (o1 + o2)[0] == o1[0];
      assert Completed(s1 + s2, o1 + o2)
          == Permuted(s1[0], o1[0]) + Completed(s1[1..] + s2, o1[1..] + o2);
    }
  }

  /** Each task is drained exactly once, whatever the orders. */
  lemma {:induction false} CompletedMultiset<X>(slices: seq<seq<X>>, order: seq<seq<nat>>)
    requires ValidOrder(slices, order)
    ensures multiset(Completed(slices, order)) == multiset(Concat(slices))
    decreases |slices|
  {
    if |slices| > 0 {
      PermutedMultiset(slices[0], order[0]);
      CompletedMultiset(slices[1..], order[1..]);
    }
  }

  /** The log lines of execute_in_parallel; results go to the sink's
      default directory under the task id. */
  function ExecFormat(): Format
  {
    Format(
      id => "Task " + id + " executed successfully",
      (id, exc) => "Task with " + id + " generated an exception: " + exc,
      None,
      id => id)
  }

  /** The ValueError range() raises for a step of 0. */
  const ZeroStep := ValueError("range() arg 3 must not be zero")

  /** The futures of one batch, drained as they complete: one log line per
      task, and a write for each that returned; a write that raises ends
      the drain. The logs and writes so far are those of the earlier
      batches. */
  method DrainBatch<T>(batch: seq<(string, Outcome<T>)>, perm: seq<nat>, ghost done: seq<(string, Outcome<T>)>,
                       logs: seq<string>, writes: seq<Written<T>>, sinkError: Written<T> -> Option<string>)
    returns (logs': seq<string>, writes': seq<Written<T>>, failure: Option<string>)
    requires IsPerm(perm, |batch|)
    requires DrainSpec(ExecFormat(), done, sinkError) == Drain(logs, writes, None)
    ensures DrainSpec(ExecFormat(), done + Permuted(batch, perm), sinkError) == Drain(logs', writes', failure)
  {
    var fmt := ExecFormat();
    ghost var finished := Permuted(batch, perm);
    ghost var seen := done;
    logs', writes' := logs, writes;
    for j := 0 to |batch|
      invariant seen == done + finished[..j]
      invariant DrainSpec(fmt, seen, sinkError) == Drain(logs', writes', None)
    {
      var (taskId, outcome) := batch[perm[j]];
      assert finished[j] == (taskId, outcome);
      PrefixStep(done, finished, j);
      DrainStep(fmt, seen, (taskId, outcome), sinkError);
      seen := seen + [(taskId, outcome)];
      logs' := logs' + [LogLine(fmt, (taskId, outcome))];
      match outcome {
        case Raised(_) =>
        case Returned(result) =>
          var target := WriteOf(fmt, taskId, result);
          failure := sinkError(target);
          if failure.Some? {
            PrefixRest(done, finished, j + 1);
            DrainStops(fmt, seen, finished[j + 1..], sinkError);
            assert DrainSpec(fmt, seen, sinkError) == Drain(logs', writes', failure);
            assert seen + finished[j + 1..] == done + finished;
            return;
          }
          writes' := writes' + [target];
      }
    }
    PrefixRest(done, finished, |batch|);
    assert seen == done + finished;
    failure := None;
  }

  lemma PrefixStep<X>(xs: seq<X>, ys: seq<X>, j: nat)
    requires j < |ys|
    ensures xs + ys[..j + 1] == (xs + ys[..j]) + [ys[j]]
  {
    assert ys[..j + 1] == ys[..j] + [ys[j]];
  }

  lemma PrefixRest<X>(xs: seq<X>, ys: seq<X>, j: nat)
    requires j <= |ys|
    ensures (xs + ys[..j]) + ys[j..] == xs + ys
  {
    assert ys[..j] + ys[j..] == ys;
  }

  /** execute_in_parallel(tasks, batch_size=3): each task is its id and what
      its callable returns or raises. */
  method ExecuteInParallel<T>(tasks: seq<(string, Outcome<T>)>, order: seq<seq<nat>>,
                              sinkError: Written<T> -> Option<string>, batchSize: int := 3)
    returns (r: Result<seq<string>>, writes: seq<Written<T>>)
    requires batchSize > 0 ==> ValidOrder(Slices(tasks, batchSize), order)
    ensures batchSize == 0 ==> r == Err(ZeroStep) && writes == []
    ensures batchSize < 0 ==> r == Ok([]) && writes == []
    ensures batchSize > 0 ==>
              var d := DrainSpec(ExecFormat(), Completed(Slices(tasks, batchSize), order), sinkError);
              && writes == d.writes
              && r == (if d.failure.None? then Ok(d.logs) else Err(Propagated(d.failure.value)))
  {
    writes := [];
    if batchSize == 0 {
      return Err(ZeroStep), [];
    }
    if batchSize < 0 {
      return Ok([]), [];
    }
    var logs, failure;
    logs, writes, failure := DrainBatches(tasks, batchSize, order, sinkError);
    r := if failure.None? then Ok(logs) else Err(Propagated(failure.value));
  }

  /** The loop of execute_in_parallel: slice after slice of batch_size
      tasks, each submitted to a fresh pool and drained in its completion
      order; a write that raises ends the loop. */
  method DrainBatches<T>(tasks: seq<(string, Outcome<T>)>, batchSize: nat,
                         order: seq<seq<nat>>, sinkError: Written<T> -> Option<string>)
    returns (logs: seq<string>, writes: seq<Written<T>>, failure: Option<string>)
    requires batchSize > 0 && ValidOrder(Slices(tasks, batchSize), order)
    ensures DrainSpec(ExecFormat(), Completed(Slices(tasks, batchSize), order), sinkError) == Drain(logs, writes, failure)
  {
    logs, writes := [], [];
    var n := |tasks|;
    var i := 0;
    var b := 0;
    ghost var all := Slices(tasks, batchSize);
    ghost var done: seq<(string, Outcome<T>)> := [];
    assert tasks[0..] == tasks;
    while i < n
      invariant 0 <= i <= n && 0 <= b <= |all|
      invariant Slices(tasks[i..], batchSize) == all[b..]
      invariant ValidOrder(all[..b], order[..b])
      invariant done == Completed(all[..b], order[..b])
      invariant DrainSpec(ExecFormat(), done, sinkError) == Drain(logs, writes, None)
      decreases n - i
    {
      var end := if i + batchSize < n then i + batchSize else n;
      var batch := tasks[i..end];
      SlicesFrom(tasks, i, batchSize);
      ghost var later := Slices(tasks[end..], batchSize);
      assert all[b..] == [batch] + later;
      assert all[b..][0] == batch;
      var perm := order[b];
      logs, writes, failure := DrainBatch(batch, perm, done, logs, writes, sinkError);
      if failure.Some? {
        ExecStops(ExecFormat(), all, order, b, sinkError);
        return;
      }
      CompletedPrefix(all, order, b);
      done := done + Permuted(batch, perm);
      assert all[b + 1..] == all[b..][1..] == later;
      // range(0, n, batch_size) steps by batch_size; stepping to the end of
      // the slice is the same, since a short slice is the last one
      i := end;
      b := b + 1;
    }
    assert tasks[n..] == [];
    assert all[..b] == all && order[..b] == order;
    failure := None;
  }

  /** Batches are drained in list order: after the first b comes batch b. */
  lemma CompletedPrefix<X>(slices: seq<seq<X>>, order: seq<seq<nat>>, b: nat)
    requires ValidOrder(slices, order) && b < |slices|
    ensures ValidOrder(slices[..b + 1], order[..b + 1])
    ensures Completed(slices[..b + 1], order[..b + 1])
            == Completed(slices[..b], order[..b]) + Permuted(slices[b], order[b])
  {
    assert slices[..b + 1] == slices[..b] + [slices[b]];
    assert order[..b + 1] == order[..b] + [order[b]];
    CompletedConcat(slices[..b], order[..b], [slices[b]], [order[b]]);
    assert Completed([slices[b]], [order[b]]) == Permuted(slices[b], order[b]) + Completed([], []);
  }

  /** Batch b is drained after every earlier batch and before every later
      one. */
  lemma CompletedAt<X>(slices: seq<seq<X>>, order: seq<seq<nat>>, b: nat)
    requires ValidOrder(slices, order) && b < |slices|
    ensures ValidOrder(slices[..b], order[..b]) && ValidOrder(slices[b + 1..], order[b + 1..])
    ensures Completed(slices, order)
            == Completed(slices[..b], order[..b]) + Permuted(slices[b], order[b])
               + Completed(slices[b + 1..], order[b + 1..])
  {
    var n := |slices|;
    ValidOrderSlice(slices, order, 0, b);
    ValidOrderSlice(slices, order, b, n);
    ValidOrderSlice(slices, order, b + 1, n);
    assert slices[0..b] == slices[..b] && order[0..b] == order[..b];
    assert slices[b..n] == slices[b..] && order[b..n] == order[b..];
    assert slices[b + 1..n] == slices[b + 1..] && order[b + 1..n] == order[b + 1..];
    assert slices == slices[..b] + slices[b..];
    assert order == order[..b] + order[b..];
    CompletedConcat(slices[..b], order[..b], slices[b..], order[b..]);
    assert slices[b..][1..] == slices[b + 1..];
    assert order[b..][1..] == order[b + 1..];
  }

  /** A write that raises in a batch ends the whole run with the drain
      state reached at the end of that batch. */
  lemma ExecStops<T>(fmt: Format, all: seq<seq<(string, Outcome<T>)>>, order: seq<seq<nat>>, b: nat,
                     sinkError: Written<T> -> Option<string>)
    requires ValidOrder(all, order) && b < |all|
    requires ValidOrder(all[..b], order[..b])
    requires DrainSpec(fmt, Completed(all[..b], order[..b]) + Permuted(all[b], order[b]), sinkError).failure.Some?
    ensures DrainSpec(fmt, Completed(all, order), sinkError)
            == DrainSpec(fmt, Completed(all[..b], order[..b]) + Permuted(all[b], order[b]), sinkError)
  {
    CompletedAt(all, order, b);
    DrainStops(fmt, Completed(all[..b], order[..b]) + Permuted(all[b], order[b]),
               Completed(all[b + 1..], order[b + 1..]), sinkError);
  }

  /** The batch that starts at i, and the batches after it. */
  lemma SlicesFrom<X>(xs: seq<X>, i: nat, size: nat)
    requires size > 0 && i < |xs|
    ensures var end := if i + size < |xs| then i + size else |xs|;
      Slices(xs[i..], size) == [xs[i..end]] + Slices(xs[end..], size)
  {
    if i + size < |xs| {
      assert xs[i..][..size] == xs[i..i + size];
      assert xs[i..][size..] == xs[i + size..];
    } else {
      assert xs[i..] == xs[i..|xs|];
      assert xs[|xs|..] == [];
    }
  }

  /** With no failing write, execute_in_parallel returns exactly one log
      line per task, each task's line once, batch after batch. */
  lemma ExecLogs<T>(tasks: seq<(string, Outcome<T>)>, batchSize: nat, order: seq<seq<nat>>,
                    sinkError: Written<T> -> Option<string>)
    requires batchSize > 0 && ValidOrder(Slices(tasks, batchSize), order)
    requires forall k :: 0 <= k < |tasks| && tasks[k].1.Returned? ==>
               sinkError(WriteOf(ExecFormat(), tasks[k].0, tasks[k].1.value)).None?
    ensures var done := Completed(Slices(tasks, batchSize), order);
      var d := DrainSpec(ExecFormat(), done, sinkError);
      && d.failure.None?
      && |done| == |d.logs| == |tasks|
      && multiset(done) == multiset(tasks)
      && (forall p :: 0 <= p < |tasks| ==> d.logs[p] == LogLine(ExecFormat(), done[p]))
      && d.writes == Successes(ExecFormat(), done)
  {
    var all := Slices(tasks, batchSize);
    var done := Completed(all, order);
    SlicesSpec(tasks, batchSize);
    CompletedMultiset(all, order);
    assert |multiset(done)| == |multiset(tasks)|;
    forall k | 0 <= k < |done| && done[k].1.Returned?
      ensures sinkError(WriteOf(ExecFormat(), done[k].0, done[k].1.value)).None?
    {
      assert done[k] in multiset(tasks);
      var i :| 0 <= i < |tasks| && tasks[i] == done[k];
    }
    DrainCompletes(ExecFormat(), done, sinkError);
    DrainLogs(ExecFormat(), done, sinkError);
  }
}
