/** What lib/exec.py and lib/parallel.py share: tasks whose callables
    either return a result or raise, a pool that hands them back in an
    order of its own choosing, and the drain loop that logs one line per
    finished task and writes the results of those that succeeded. */
module Scheduling {
  import opened Common

  /** What a task's callable does: returns a value or raises an exception
      whose text is `exc`. */
  datatype Outcome<+T> = Returned(value: T) | Raised(exc: string)

  /** order lists each of 0 .. n-1 exactly once. */
  predicate IsPerm(order: seq<nat>, n: nat)
  {
    && |order| == n
    && (forall j :: 0 <= j < n ==> order[j] < n)
    && (forall i, j :: 0 <= i < j < n ==> order[i] != order[j])
    && (forall t :: 0 <= t < n ==> t in order)
  }

  /** xs in the order a pool finished them. */
  function Permuted<X>(xs: seq<X>, order: seq<nat>): (ys: seq<X>)
    requires IsPerm(order, |xs|)
    ensures |ys| == |xs|
    ensures forall j :: 0 <= j < |ys| ==> ys[j] == xs[order[j]]
  {
    seq(|xs|, j requires 0 <= j < |xs| => xs[order[j]])
  }

  /** Taking the last position out of a permutation leaves a permutation
      of the others. */
  lemma DropLast(order: seq<nat>, n: nat, p: nat)
    requires n > 0 && IsPerm(order, n) && p < n && order[p] == n - 1
    ensures IsPerm(order[..p] + order[p + 1..], n - 1)
  {
    var rest := order[..p] + order[p + 1..];
    assert forall j :: 0 <= j < n - 1 ==> rest[j] == order[if j < p then j else j + 1];
    forall t | 0 <= t < n - 1 ensures t in rest {
      assert t in order;
      var q :| 0 <= q < |order| && order[q] == t;
      assert rest[if q < p then q else q - 1] == t;
    }
  }

  /** Finishing order without the last element: the same order with the
      position that held it taken out. */
  lemma PermutedDrop<X>(xs: seq<X>, order: seq<nat>, p: nat)
    requires |xs| > 0 && IsPerm(order, |xs|) && p < |xs| && order[p] == |xs| - 1
    ensures IsPerm(order[..p] + order[p + 1..], |xs| - 1)
    ensures var ys := Permuted(xs, order);
      Permuted(xs[..|xs| - 1], order[..p] + order[p + 1..]) == ys[..p] + ys[p + 1..]
  {
    var n := |xs|;
    var rest := order[..p] + order[p + 1..];
    DropLast(order, n, p);
    var ys := Permuted(xs, order);
    var zs := Permuted(xs[..n - 1], rest);
    forall j | 0 <= j < n - 1 ensures zs[j] == (ys[..p] + ys[p + 1..])[j] {
      var i := if j < p then j else j + 1;
      assert rest[j] == order[i] && order[i] != n - 1;
    }
  }

  /** Whatever the order, every element comes back exactly as often as it
      was submitted. */
  lemma {:induction false} PermutedMultiset<X>(xs: seq<X>, order: seq<nat>)
    requires IsPerm(order, |xs|)
    ensures multiset(Permuted(xs, order)) == multiset(xs)
    decreases |xs|
  {
    var n := |xs|;
    if n > 0 {
      assert n - 1 in order;
      var p :| 0 <= p < n && order[p] == n - 1;
      var rest := order[..p] + order[p + 1..];
      var init := xs[..n - 1];
      PermutedDrop(xs, order, p);
      PermutedMultiset(init, rest);
      MultisetSplit(Permuted(xs, order), p);
      assert xs == init + [xs[n - 1]];
    }
  }

  lemma MultisetSplit<X>(ys: seq<X>, p: nat)
    requires p < |ys|
    ensures multiset(ys) == multiset(ys[..p] + ys[p + 1..]) + multiset{ys[p]}
  {
    assert ys == ys[..p] + [ys[p]] + ys[p + 1..];
  }

  /** One call of the write sink. */
  datatype Written<+T> = Written(table: T, dir: Option<string>, name: string)

  /** The two log lines, where a write goes, and under which name. */
  datatype Format = Format(
    succeeded: string -> string,
    failed: (string, string) -> string,
    dir: Option<string>,
    name: string -> string)

  /** The log line of one finished task. */
  function LogLine<T>(fmt: Format, entry: (string, Outcome<T>)): string
  {
    match entry.1
    case Returned(_) => fmt.succeeded(entry.0)
    case Raised(exc) => fmt.failed(entry.0, exc)
  }

  function WriteOf<T>(fmt: Format, id: string, t: T): Written<T>
  {
    Written(t, fmt.dir, fmt.name(id))
  }

  /** The writes of the tasks that returned, in order. */
  function Successes<T>(fmt: Format, done: seq<(string, Outcome<T>)>): seq<Written<T>>
    decreases |done|
  {
    if |done| == 0 then []
    else
      var last := done[|done| - 1];
      Successes(fmt, done[..|done| - 1])
        + (if last.1.Returned? then [WriteOf(fmt, last.0, last.1.value)] else [])
  }

  /** The logs and writes of a drain loop, and the text of the exception a
      write raised, which ends the loop. */
  datatype Drain<+T> = Drain(logs: seq<string>, writes: seq<Written<T>>, failure: Option<string>)

  /** The drain loop over the tasks in completion order; sinkError says
      which writes raise, and with what text. */
  function DrainSpec<T>(fmt: Format, done: seq<(string, Outcome<T>)>, sinkError: Written<T> -> Option<string>): Drain<T>
    decreases |done|
  {
    if |done| == 0 then Drain([], [], None)
    else
      var prev := DrainSpec(fmt, done[..|done| - 1], sinkError);
      var last := done[|done| - 1];
      if prev.failure.Some? then prev
      else
        match last.1
        case Raised(exc) => Drain(prev.logs + [fmt.failed(last.0, exc)], prev.writes, None)
        case Returned(t) =>
          var w := WriteOf(fmt, last.0, t);
          if sinkError(w).Some? then Drain(prev.logs + [fmt.succeeded(last.0)], prev.writes, sinkError(w))
          else Drain(prev.logs + [fmt.succeeded(last.0)], prev.writes + [w], None)
  }

  /** A drain that ran to the end logged every task once, in completion
      order, and wrote exactly the results of those that returned, in that
      order. One that a write stopped logged the tasks up to and including
      the one whose write raised, and wrote the results before it. */
  lemma DrainLogs<T>(fmt: Format, done: seq<(string, Outcome<T>)>, sinkError: Written<T> -> Option<string>)
    ensures var d := DrainSpec(fmt, done, sinkError);
      && |d.logs| <= |done|
      && (forall k :: 0 <= k < |d.logs| ==> d.logs[k] == LogLine(fmt, done[k]))
      && (d.failure.None? ==> |d.logs| == |done| && d.writes == Successes(fmt, done))
      && (d.failure.Some? ==>
            var m := |d.logs| - 1;
            && 0 <= m && done[m].1.Returned?
            && sinkError(WriteOf(fmt, done[m].0, done[m].1.value)) == d.failure
            && d.writes == Successes(fmt, done[..m]))
  {
    DrainLines(fmt, done, sinkError);
    DrainWrites(fmt, done, sinkError);
  }

  /** The log lines of a drain are those of a prefix of the tasks; all of
      them when no write raised, and at least one otherwise. */
  lemma {:induction false} DrainLines<T>(fmt: Format, done: seq<(string, Outcome<T>)>, sinkError: Written<T> -> Option<string>)
    ensures var d := DrainSpec(fmt, done, sinkError);
      && |d.logs| <= |done|
      && (forall k :: 0 <= k < |d.logs| ==> d.logs[k] == LogLine(fmt, done[k]))
      && (d.failure.None? ==> |d.logs| == |done|)
      && (d.failure.Some? ==> |d.logs| > 0)
    decreases |done|
  {
    if |done| > 0 {
      var init := done[..|done| - 1];
      DrainLines(fmt, init, sinkError);
    }
  }

  /** The writes of a drain: every returned result when no write raised;
      otherwise the last logged task returned, its write raised, and the
      writes are those of the tasks before it. */
  lemma {:induction false} DrainWrites<T>(fmt: Format, done: seq<(string, Outcome<T>)>, sinkError: Written<T> -> Option<string>)
    ensures var d := DrainSpec(fmt, done, sinkError);
      && (d.failure.None? ==> d.writes == Successes(fmt, done))
      && (d.failure.Some? ==>
            var m := |d.logs| - 1;
            && 0 <= m < |done| && done[m].1.Returned?
            && sinkError(WriteOf(fmt, done[m].0, done[m].1.value)) == d.failure
            && d.writes == Successes(fmt, done[..m]))
    decreases |done|
  {
    if |done| > 0 {
      var init := done[..|done| - 1];
      DrainWrites(fmt, init, sinkError);
      DrainLines(fmt, init, sinkError);
      var prev := DrainSpec(fmt, init, sinkError);
      if prev.failure.Some? {
        var m := |prev.logs| - 1;
        assert done[..m] == init[..m];
      }
    }
  }

  /** Without a failing write, one task raising does not stop the others
      from being logged. */
  lemma {:induction false} DrainCompletes<T>(fmt: Format, done: seq<(string, Outcome<T>)>, sinkError: Written<T> -> Option<string>)
    requires forall k :: 0 <= k < |done| && done[k].1.Returned? ==>
               sinkError(WriteOf(fmt, done[k].0, done[k].1.value)).None?
    ensures DrainSpec(fmt, done, sinkError).failure.None?
    decreases |done|
  {
    if |done| > 0 {
      DrainCompletes(fmt, done[..|done| - 1], sinkError);
    }
  }

  /** Once a write has raised, nothing after it is drained. */
  lemma {:induction false} DrainStops<T>(fmt: Format, done: seq<(string, Outcome<T>)>, more: seq<(string, Outcome<T>)>, sinkError: Written<T> -> Option<string>)
    requires DrainSpec(fmt, done, sinkError).failure.Some?
    ensures DrainSpec(fmt, done + more, sinkError) == DrainSpec(fmt, done, sinkError)
    decreases |more|
  {
    if |more| > 0 {
      DrainStops(fmt, done, more[..|more| - 1], sinkError);
      assert (done + more)[..|done + more| - 1] == done + more[..|more| - 1];
    } else {
      assert done + more == done;
    }
  }

  /** One more finished task extends a drain that has not failed by one step. */
  lemma DrainStep<T>(fmt: Format, done: seq<(string, Outcome<T>)>, next: (string, Outcome<T>), sinkError: Written<T> -> Option<string>)
    requires DrainSpec(fmt, done, sinkError).failure.None?
    ensures var prev := DrainSpec(fmt, done, sinkError);
      var d := DrainSpec(fmt, done + [next], sinkError);
      && d.logs == prev.logs + [LogLine(fmt, next)]
      && (next.1.Raised? ==> d.writes == prev.writes && d.failure.None?)
      && (next.1.Returned? ==>
            var w := WriteOf(fmt, next.0, next.1.value);
            && d.failure == sinkError(w)
            && d.writes == prev.writes + (if sinkError(w).None? then [w] else []))
  {
    assert (done + [next])[..|done|] == done;
  }
}
