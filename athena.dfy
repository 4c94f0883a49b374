/** AthenaQueryExecutor (executor/athena.py): the life of one remote query
    job. The query service is an input: `start` gives the execution id the
    service assigns to a query in a workgroup, or the exception the client
    raises; `state` the k-th status it reports for an execution id while
    being polled; and `results` the rows it returns for an execution id, or
    the exception the client raises (as it does for a job that did not
    succeed). `time.sleep` appends its delay to the ghost log `sleeps`. */
module Athena {
  import opened Common
  import opened DataFrame

  /** The terminal statuses (the enum's numeric values are never used). */
  datatype Status = SUCCEEDED | FAILED | CANCELLED

  function Name(s: Status): string
  {
    match s
    case SUCCEEDED => "SUCCEEDED"
    case FAILED => "FAILED"
    case CANCELLED => "CANCELLED"
  }

  /** The only workgroup queries are started in. */
  const PowerUser := "poweruser"

  /** A status after which polling stops. */
  predicate Terminal(state: string)
  {
    state == Name(SUCCEEDED) || state == Name(FAILED) || state == Name(CANCELLED)
  }

  datatype Service = Service(
    start: (string, string) -> Result<string>,
    state: Option<string> -> nat -> string,
    results: Option<string> -> Result<seq<ResultRow>>)

  /** 2^n, the factor by which n doublings scale the delay. */
  function Pow2(n: nat): (p: nat)
    ensures p >= 1
    ensures p >= n + 1
  {
    if n == 0 then 1 else 2 * Pow2(n - 1)
  }

  /** The delays of n consecutive sleeps starting from d. */
  function Backoff(d: int, n: nat): (b: seq<int>)
    ensures |b| == n
  {
    seq(n, k requires 0 <= k < n => d * Pow2(k))
  }

  function Sum(s: seq<int>): int
    decreases |s|
  {
    if |s| == 0 then 0 else Sum(s[..|s| - 1]) + s[|s| - 1]
  }

  /** The index of the first terminal status among the first n answers. */
  function FirstTerminal(answers: nat -> string, n: nat): (r: Option<nat>)
    ensures r.Some? ==> r.value < n && Terminal(answers(r.value))
    ensures r.Some? ==> forall k :: 0 <= k < r.value ==> !Terminal(answers(k))
    ensures r.None? ==> forall k :: 0 <= k < n ==> !Terminal(answers(k))
  {
    if n == 0 then None
    else
      match FirstTerminal(answers, n - 1)
      case Some(k) => Some(k)
      case None => if Terminal(answers(n - 1)) then Some(n - 1) else None
  }

  /** What one wait does: how many times it polls, the sleeps it takes, and
      the status it sets, or None when time.sleep raised and the status was
      left as it was. */
  datatype Wait = Wait(polls: nat, sleeps: seq<int>, status: Option<bool>)

  /** The error time.sleep raises for a negative delay. */
  const NegativeSleep := ValueError("sleep length must be non-negative")

  function WaitSpec(answers: nat -> string, maxAttempt: int, d: int): Wait
  {
    var limit := if maxAttempt > 0 then maxAttempt else 0;
    match FirstTerminal(answers, limit)
    case Some(k) =>
      if d < 0 && k > 0 then Wait(1, [], None)
      else Wait(k + 1, Backoff(d, k), Some(answers(k) == Name(SUCCEEDED)))
    case None =>
      if d < 0 && limit > 0 then Wait(1, [], None)
      else Wait(limit, Backoff(d, limit), Some(false))
  }

  /** With a non-negative initial delay: at most max_attempt polls, none at
      all for max_attempt <= 0; the status is true iff SUCCEEDED is the first
      terminal status reported; every non-terminal poll is followed by
      exactly one sleep, and polling stops at the first terminal status. */
  lemma WaitBehaviour(answers: nat -> string, maxAttempt: int, d: int)
    requires d >= 0
    ensures var w := WaitSpec(answers, maxAttempt, d);
      && w.status.Some?
      && w.polls <= (if maxAttempt > 0 then maxAttempt else 0)
      && (maxAttempt <= 0 ==> w.polls == 0 && w.sleeps == [] && w.status == Some(false))
      && (forall k :: 0 <= k < w.polls - 1 ==> !Terminal(answers(k)))
      && (w.status == Some(true) <==>
            exists k :: 0 <= k < maxAttempt && answers(k) == Name(SUCCEEDED)
                     && forall i :: 0 <= i < k ==> !Terminal(answers(i)))
      && (w.polls > 0 && Terminal(answers(w.polls - 1)) ==> |w.sleeps| == w.polls - 1)
      && (w.polls > 0 && !Terminal(answers(w.polls - 1)) ==> |w.sleeps| == w.polls && w.polls == maxAttempt)
  {
    var limit := if maxAttempt > 0 then maxAttempt else 0;
    var w := WaitSpec(answers, maxAttempt, d);
    match FirstTerminal(answers, limit)
    case Some(k) =>
      forall j | 0 <= j < maxAttempt && answers(j) == Name(SUCCEEDED)
                 && forall i :: 0 <= i < j ==> !Terminal(answers(i))
        ensures j == k
      {
      }
    case None =>
  }

  /** A negative initial delay makes the first sleep raise: the wait then
      stops after one poll that was not terminal. */
  lemma WaitNegativeDelay(answers: nat -> string, maxAttempt: int, d: int)
    requires d < 0 && maxAttempt > 0 && !Terminal(answers(0))
    ensures WaitSpec(answers, maxAttempt, d) == Wait(1, [], None)
  {
  }

  /** A wait whose first terminal status comes at poll k, within the
      attempts and before any sleep could raise, polls k + 1 times, sleeps
      k times, and sets the status to whether that status is SUCCEEDED. */
  lemma WaitStopsAt(answers: nat -> string, maxAttempt: int, d: int, k: nat)
    requires k < maxAttempt && Terminal(answers(k))
    requires forall i :: 0 <= i < k ==> !Terminal(answers(i))
    requires d < 0 ==> k == 0
    ensures WaitSpec(answers, maxAttempt, d) == Wait(k + 1, Backoff(d, k), Some(answers(k) == Name(SUCCEEDED)))
  {
  }

  /** A wait whose polls are all non-terminal, with no sleep raising,
      polls max_attempt times, sleeps after each poll, and sets the status
      to false. */
  lemma WaitExhausted(answers: nat -> string, maxAttempt: int, d: int)
    requires forall i :: 0 <= i < maxAttempt ==> !Terminal(answers(i))
    requires d < 0 ==> maxAttempt <= 0
    ensures var limit := if maxAttempt > 0 then maxAttempt else 0;
      WaitSpec(answers, maxAttempt, d) == Wait(limit, Backoff(d, limit), Some(false))
  {
  }

  /** Sleep k lasts d * 2^k: each delay is twice the one before, so the
      delays double rather than follow the Fibonacci numbers. */
  lemma BackoffDoubles(d: int, n: nat)
    ensures forall k :: 0 < k < n ==> Backoff(d, n)[k] == 2 * Backoff(d, n)[k - 1]
    ensures n > 0 ==> Backoff(d, n)[0] == d
    ensures n >= 3 && d != 0 ==> Backoff(d, n)[2] != Backoff(d, n)[0] + Backoff(d, n)[1]
  {
    forall k | 0 < k < n ensures Backoff(d, n)[k] == 2 * Backoff(d, n)[k - 1] {
      assert d * Pow2(k) == d * (2 * Pow2(k - 1)) == 2 * (d * Pow2(k - 1));
    }
  }

  /** n sleeps starting from d last d * (2^n - 1) in all. */
  lemma {:induction false} BackoffTotal(d: int, n: nat)
    ensures Sum(Backoff(d, n)) == d * (Pow2(n) - 1)
  {
    if n > 0 {
      BackoffTotal(d, n - 1);
      assert Backoff(d, n)[..n - 1] == Backoff(d, n - 1);
      assert d * (Pow2(n) - 1) == d * (Pow2(n - 1) - 1) + d * Pow2(n - 1);
    }
  }

  /** The sleeps of a wait whose every poll is non-terminal, with the
      default initial delay of 1: 1, 2, 4, ..., 2^(n-1), 2^n - 1 seconds in all. */
  lemma WaitAllPending(answers: nat -> string, maxAttempt: nat)
    requires forall k :: 0 <= k < maxAttempt ==> !Terminal(answers(k))
    ensures WaitSpec(answers, maxAttempt, 1).status == Some(false)
    ensures WaitSpec(answers, maxAttempt, 1).polls == maxAttempt
    ensures Sum(WaitSpec(answers, maxAttempt, 1).sleeps) == Pow2(maxAttempt) - 1
  {
    BackoffTotal(1, maxAttempt);
  }

  class AthenaQueryExecutor {
    const workGroup: string
    var queryExecutionId: Option<string>
    var queryStatus: bool
    ghost var sleeps: seq<int>
    ghost var polls: nat

    constructor ()
      ensures workGroup == PowerUser
      ensures queryExecutionId == None && !queryStatus
      ensures sleeps == [] && polls == 0
    {
      workGroup := PowerUser;
      queryExecutionId := None;
      queryStatus := false;
      sleeps := [];
      polls := 0;
    }

    /** Starts the query in the executor's workgroup and records the id;
        when the client raises, the exception propagates and the recorded
        id is the one before. */
    method ExecuteQuery(query: string, start: (string, string) -> Result<string>) returns (r: Result<()>)
      modifies this
      ensures start(query, workGroup).Ok? ==>
                r == Ok(()) && queryExecutionId == Some(start(query, workGroup).value)
      ensures start(query, workGroup).Err? ==>
                r == Err(start(query, workGroup).error) && queryExecutionId == old(queryExecutionId)
      ensures queryStatus == old(queryStatus)
      ensures sleeps == old(sleeps) && polls == old(polls)
    {
      var response := start(query, workGroup);
      if response.Err? {
        return Err(response.error);
      }
      queryExecutionId := Some(response.value);
      r := Ok(());
    }

    /** Polls the recorded execution until a terminal status or until
        max_attempt polls, doubling the delay after each pending one. */
    method WaitForQueryToComplete(state: Option<string> -> nat -> string, maxAttempt: int := 5, initialDelay: int := 1)
      returns (r: Result<()>)
      modifies this
      ensures queryExecutionId == old(queryExecutionId)
      ensures var w := WaitSpec(state(queryExecutionId), maxAttempt, initialDelay);
        && polls == old(polls) + w.polls
        && sleeps == old(sleeps) + w.sleeps
        && (w.status.Some? ==> r == Ok(()) && queryStatus == w.status.value)
        && (w.status.None? ==> r == Err(NegativeSleep) && queryStatus == old(queryStatus))
    {
      var answers := state(queryExecutionId);
      ghost var limit := if maxAttempt > 0 then maxAttempt else 0;
      var attempt := 0;
      var delay := 0;
      var nextDelay := initialDelay;
      while attempt < maxAttempt
        invariant 0 <= attempt <= limit
        invariant forall k :: 0 <= k < attempt ==> !Terminal(answers(k))
        invariant nextDelay == initialDelay * Pow2(attempt)
        invariant initialDelay < 0 ==> attempt == 0
        invariant polls == old(polls) + attempt
        invariant sleeps == old(sleeps) + Backoff(initialDelay, attempt)
        invariant queryExecutionId == old(queryExecutionId) && queryStatus == old(queryStatus)
      {
        var status := answers(attempt);
        polls := polls + 1;
        if Terminal(status) {
          queryStatus := status == Name(SUCCEEDED);
          WaitStopsAt(answers, maxAttempt, initialDelay, attempt);
          return Ok(());
        }
        attempt := attempt + 1;
        delay := nextDelay;
        nextDelay := nextDelay + delay;
        if delay < 0 {
          WaitNegativeDelay(answers, maxAttempt, initialDelay);
          return Err(NegativeSleep);
        }
        sleeps := sleeps + [delay];
        assert Backoff(initialDelay, attempt) == Backoff(initialDelay, attempt - 1) + [delay];
      }
      WaitExhausted(answers, maxAttempt, initialDelay);
      queryStatus := false;
      r := Ok(());
    }

    /** Returns the service's rows for the recorded execution id, or raises
        what the client raises; the status set by the wait is not
        consulted. */
    method GetQueryResults(results: Option<string> -> Result<seq<ResultRow>>) returns (rows: Result<seq<ResultRow>>)
      ensures rows == results(queryExecutionId)
    {
      rows := results(queryExecutionId);
    }
  }

  /** The rows a caller gets for a query: those of the execution the
      service started for it, whatever status the job ended in; or the
      exception starting it or fetching its rows raised. */
  function Fetched(svc: Service, query: string): Result<seq<ResultRow>>
  {
    match svc.start(query, PowerUser)
    case Err(e) => Err(e)
    case Ok(id) => svc.results(Some(id))
  }
}
