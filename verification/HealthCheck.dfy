/** The state a health checker keeps between checks (agent/healthcheck.go). */
module HealthChecks {
  import opened Bytes

  datatype Result = Result(exitCode: int, output: string)

  datatype Status = Starting | Healthy | Unhealthy

  const LOG_LENGTH := 5
  const OUTPUT_LENGTH := 4096

  function Truncate(s: string, max: nat): string {
    if |s| <= max then s else s[..max]
  }

  function Entry(r: Result): Result {
    r.(output := Truncate(r.output, OUTPUT_LENGTH))
  }

  function Entries(history: seq<Result>): (es: seq<Result>)
    ensures |es| == |history| && forall i :: 0 <= i < |es| ==> es[i] == Entry(history[i])
  {
    seq(|history|, i requires 0 <= i < |history| => Entry(history[i]))
  }

  // ---------- What a history of results amounts to ----------

  /** The number of failures since the last success. */
  function Streak(history: seq<Result>): nat {
    if history == [] || history[|history| - 1].exitCode == 0 then 0 else Streak(history[..|history| - 1]) + 1
  }

  predicate EverPassed(history: seq<Result>) {
    exists i :: 0 <= i < |history| && history[i].exitCode == 0
  }

  /** Unhealthy as long as the last retries checks failed; otherwise healthy if any check ever passed. */
  function StatusOf(history: seq<Result>, retries: int): Status {
    if Streak(history) > 0 && Streak(history) >= retries then Unhealthy
    else if EverPassed(history) then Healthy
    else Starting
  }

  /** The streak is the longest run of failures at the end. */
  lemma {:induction false} StreakExact(history: seq<Result>)
    ensures Streak(history) <= |history|
    ensures forall i :: |history| - Streak(history) <= i < |history| ==> history[i].exitCode != 0
    ensures Streak(history) < |history| ==> history[|history| - Streak(history) - 1].exitCode == 0
  {
    if history != [] && history[|history| - 1].exitCode != 0 {
      StreakExact(history[..|history| - 1]);
    }
  }

  /** Unhealthy if and only if the last check failed and so did the last retries checks, all of them if need be; of the
      others, healthy if and only if some check passed. */
  lemma StatusExact(history: seq<Result>, retries: int)
    ensures StatusOf(history, retries) == Unhealthy <==>
            && history != [] && history[|history| - 1].exitCode != 0
            && retries <= |history|
            && forall i :: 0 <= i < |history| && |history| - retries <= i ==> history[i].exitCode != 0
    ensures StatusOf(history, retries) == Healthy <==>
            StatusOf(history, retries) != Unhealthy && exists i :: 0 <= i < |history| && history[i].exitCode == 0
  {
    StreakExact(history);
  }

  lemma OneMoreStreak(history: seq<Result>, r: Result)
    ensures Streak(history + [r]) == if r.exitCode == 0 then 0 else Streak(history) + 1
    ensures EverPassed(history + [r]) <==> EverPassed(history) || r.exitCode == 0
  {
    assert (history + [r])[..|history|] == history;
    if EverPassed(history) {
      var i :| 0 <= i < |history| && history[i].exitCode == 0;
      assert (history + [r])[i].exitCode == 0;
    }
    if r.exitCode == 0 {
      assert (history + [r])[|history|].exitCode == 0;
    }
  }

  /** Without a success, all results are failures. */
  lemma {:induction false} NeverPassed(history: seq<Result>)
    requires !EverPassed(history)
    ensures Streak(history) == |history|
  {
    StreakExact(history);
    if Streak(history) < |history| {
      assert history[|history| - Streak(history) - 1].exitCode == 0;
      assert false;
    }
  }

  lemma LastAppend<T>(s: seq<T>, x: T, n: nat)
    requires n > 0
    ensures Last(n, Last(n, s) + [x]) == Last(n, s + [x])
  {
  }

  /** The log has the last five results, or all if there are fewer, each with the first 4096 bytes of its output. */
  lemma LogExact(history: seq<Result>, i: nat)
    ensures var log := Last(LOG_LENGTH, Entries(history));
            && |log| == (if |history| < 5 then |history| else 5)
            && (i < |log| ==>
                  var r := history[|history| - |log| + i];
                  && log[i].exitCode == r.exitCode && log[i].output <= r.output
                  && |log[i].output| == if |r.output| < 4096 then |r.output| else 4096)
  {
    var es := Entries(history);
    var log := Last(LOG_LENGTH, es);
    if i < |log| {
      assert log[i] == es[|es| - |log| + i] == Entry(history[|history| - |log| + i]);
    }
  }

  // ---------- The checker ----------

  class HealthChecker {
    const retries: int
    var status: Status
    var failingStreak: int
    var log: seq<Result>
    /** Every result recorded so far. */
    ghost var history: seq<Result>

    /** The fields are functions of the history alone. */
    ghost predicate Valid()
      reads this
    {
      && failingStreak == Streak(history)
      && status == StatusOf(history, retries)
      && log == Last(LOG_LENGTH, Entries(history))
    }

    constructor (retries: int)
      ensures Valid() && history == [] && this.retries == (if retries == 0 then 3 else retries)
    {
      this.retries := if retries == 0 then 3 else retries;
      status, failingStreak, log, history := Starting, 0, [], [];
    }

    method RecordResult(r: Result)
      requires Valid()
      modifies this
      ensures Valid() && history == old(history) + [r]
    {
      hide Streak, EverPassed, Truncate;
      OneMoreStreak(history, r);
      LastAppend(Entries(history), Entry(r), LOG_LENGTH);
      assert Entries(history + [r]) == Entries(history) + [Entry(r)];
      log := log + [Result(r.exitCode, Truncate(r.output, OUTPUT_LENGTH))];
      if |log| > LOG_LENGTH {
        log := log[|log| - LOG_LENGTH..];
      }
      if r.exitCode == 0 {
        failingStreak := 0;
        status := Healthy;
      } else {
        failingStreak := failingStreak + 1;
        if failingStreak >= retries {
          status := Unhealthy;
        }
      }
      history := history + [r];
    }
  }
}
