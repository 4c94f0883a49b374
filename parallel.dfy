/** run (lib/parallel.py): checks that every item is a Task, submits every
    task's callable to one pool, and drains the futures in completion
    order, logging one line per task and writing the results of those that
    returned. The completion order is an input permutation; the write sink
    is an input that says which writes raise. */
module Parallel {
  import opened Common
  import opened Scheduling
  import opened Tasks

  /** An element of the `tasks` list: a Task, or anything else. */
  datatype Entry<T> = IsTask(task: Task<T>) | NotTask

  /** `workers or 6`: None and 0 are falsy. */
  function EffectiveWorkers(workers: Option<int>): int
  {
    match workers
    case None => 6
    case Some(n) => if n == 0 then 6 else n
  }

  /** `workers or 6` never gives 0: None and 0 give the default of 6, and
      any other count, negative ones included, is kept. */
  lemma EffectiveWorkersSpec(workers: Option<int>)
    ensures EffectiveWorkers(workers) != 0
    ensures workers == None || workers == Some(0) ==> EffectiveWorkers(workers) == 6
    ensures workers.Some? && workers.value != 0 ==> EffectiveWorkers(workers) == workers.value
  {
  }

  /** The error ThreadPoolExecutor raises for a non-positive worker count. */
  const PoolSize := ValueError("max_workers must be greater than 0")

  /** The output file name: the prefix, "_" and the id, or the id alone
      when the prefix is empty. */
  function OutputName(prefixFilename: string, id: string): (name: string)
    ensures prefixFilename == "" ==> name == id
    ensures prefixFilename != "" ==>
              && |name| == |prefixFilename| + 1 + |id|
              && name[..|prefixFilename|] == prefixFilename
              && name[|prefixFilename|] == '_'
              && name[|prefixFilename| + 1..] == id
  {
    if prefixFilename != "" then prefixFilename + "_" + id else id
  }

  /** The log lines of run, and its writes into prefix_dir. */
  function RunFormat(prefixDir: string, prefixFilename: string): Format
  {
    Format(
      id => "[SUCCEEDED] Task-" + id + " executed successfully",
      (id, exc) => "[FAILED] Task-" + id + " generated an exception: " + exc,
      Some(prefixDir),
      id => OutputName(prefixFilename, id))
  }

  predicate AllTasks<T>(items: seq<Entry<T>>)
  {
    forall k :: 0 <= k < |items| ==> items[k].IsTask?
  }

  /** The up-front check as written: its logging line names `logger`, which
      the module never defines, so a NameError is what surfaces. */
  function TypeCheckAsWritten<T>(items: seq<Entry<T>>): Option<Error>
  {
    if AllTasks(items) then None else Some(NameError("logger"))
  }

  /** The up-front check as intended: a TypeError. */
  function TypeCheck<T>(items: seq<Entry<T>>): Option<Error>
  {
    if AllTasks(items) then None else Some(TypeError(""))
  }

  /** The two checks reject the same lists, but with different exceptions:
      a list holding one item that is not a Task gives a NameError as
      written and a TypeError as intended. */
  lemma LoggerUndefined<T>(items: seq<Entry<T>>)
    ensures TypeCheckAsWritten(items).None? <==> TypeCheck(items).None?
    ensures !AllTasks(items) ==>
              && TypeCheckAsWritten(items) == Some(NameError("logger"))
              && TypeCheck(items) == Some(TypeError(""))
    ensures TypeCheckAsWritten<int>([NotTask]) != TypeCheck<int>([NotTask])
  {
    var one: seq<Entry<int>> := [NotTask];
    assert !AllTasks(one) by {
      assert one[0].NotTask?;
    }
  }

  /** Each task's id and what its callable returns or raises. */
  function Submitted<T>(items: seq<Entry<T>>): (entries: seq<(string, Outcome<T>)>)
    requires AllTasks(items)
    ensures |entries| == |items|
  {
    seq(|items|, k requires 0 <= k < |items| => (items[k].task.id, items[k].task.callableFunc()))
  }

  /** run(tasks, workers, prefix_dir, prefix_filename), as written: a
      list holding an item that is not a Task raises the NameError of the
      undefined logger before anything is submitted. */
  method Run<T>(items: seq<Entry<T>>, workers: Option<int>, prefixDir: string, prefixFilename: string,
                order: seq<nat>, sinkError: Written<T> -> Option<string>)
    returns (r: Result<seq<string>>, writes: seq<Written<T>>)
    requires IsPerm(order, |items|)
    ensures TypeCheckAsWritten(items).Some? ==> r == Err(TypeCheckAsWritten(items).value) && writes == []
    ensures TypeCheckAsWritten(items).None? && EffectiveWorkers(workers) < 0 ==> r == Err(PoolSize) && writes == []
    ensures TypeCheckAsWritten(items).None? && EffectiveWorkers(workers) > 0 ==>
              var d := DrainSpec(RunFormat(prefixDir, prefixFilename), Permuted(Submitted(items), order), sinkError);
              && writes == d.writes
              && r == (if d.failure.None? then Ok(d.logs) else Err(Propagated(d.failure.value)))
  {
    var poolSize := EffectiveWorkers(workers);
    if exists k :: 0 <= k < |items| && items[k].NotTask? {
      return Err(NameError("logger")), [];
    }
    if poolSize <= 0 {
      return Err(PoolSize), [];
    }
    var logs, failure;
    logs, writes, failure := DrainAll(Submitted(items), order, prefixDir, prefixFilename, sinkError);
    r := if failure.None? then Ok(logs) else Err(Propagated(failure.value));
  }

  /** The loop of run over the futures as they complete: one log line per
      task, and a write into prefix_dir for each that returned; a write
      that raises ends the loop. */
  method DrainAll<T>(submitted: seq<(string, Outcome<T>)>, order: seq<nat>, prefixDir: string, prefixFilename: string,
                     sinkError: Written<T> -> Option<string>)
    returns (logs: seq<string>, writes: seq<Written<T>>, failure: Option<string>)
    requires IsPerm(order, |submitted|)
    ensures DrainSpec(RunFormat(prefixDir, prefixFilename), Permuted(submitted, order), sinkError) == Drain(logs, writes, failure)
  {
    var fmt := RunFormat(prefixDir, prefixFilename);
    ghost var done := Permuted(submitted, order);
    logs, writes := [], [];
    for j := 0 to |submitted|
      invariant DrainSpec(fmt, done[..j], sinkError) == Drain(logs, writes, None)
    {
      var (id, outcome) := submitted[order[j]];
      assert done[..j + 1] == done[..j] + [(id, outcome)];
      DrainStep(fmt, done[..j], (id, outcome), sinkError);
      logs := logs + [LogLine(fmt, (id, outcome))];
      match outcome {
        case Raised(_) =>
        case Returned(result) =>
          var target := WriteOf(fmt, id, result);
          failure := sinkError(target);
          if failure.Some? {
            DrainStops(fmt, done[..j + 1], done[j + 1..], sinkError);
            assert done[..j + 1] + done[j + 1..] == done;
            return;
          }
          writes := writes + [target];
      }
    }
    assert done[..|submitted|] == done;
    failure := None;
  }

  /** With every item a Task, a positive pool and no failing write, run
      returns one log line per task, each task's line exactly once, in
      completion order, and writes every result that was returned, once. */
  lemma RunLogs<T>(items: seq<Entry<T>>, prefixDir: string, prefixFilename: string,
                   order: seq<nat>, sinkError: Written<T> -> Option<string>)
    requires AllTasks(items) && IsPerm(order, |items|)
    requires forall k :: 0 <= k < |items| && items[k].task.callableFunc().Returned? ==>
               sinkError(WriteOf(RunFormat(prefixDir, prefixFilename), items[k].task.id,
                                 items[k].task.callableFunc().value)).None?
    ensures var fmt := RunFormat(prefixDir, prefixFilename);
      var done := Permuted(Submitted(items), order);
      var d := DrainSpec(fmt, done, sinkError);
      && d.failure.None?
      && |d.logs| == |items|
      && (forall j :: 0 <= j < |items| ==> d.logs[j] == LogLine(fmt, Submitted(items)[order[j]]))
      && multiset(done) == multiset(Submitted(items))
      && d.writes == Successes(fmt, done)
  {
    var fmt := RunFormat(prefixDir, prefixFilename);
    var done := Permuted(Submitted(items), order);
    DrainCompletes(fmt, done, sinkError);
    DrainLogs(fmt, done, sinkError);
    PermutedMultiset(Submitted(items), order);
  }
}
