/** The decision one firing of a job's interval timer makes, on the runner's
    closure counters `sharedCount` and `errors` alone, and the run of a job
    as the sequence of firings until the timer is cleared.

    The share request itself is outside the model: each firing receives its
    Outcome as an input. */
module TickLogic {
  import opened Common

  /** Consecutive failed attempts after which a job is abandoned (`maxErrors`). */
  const MaxErrors: int := 10

  /** What one share attempt produced: a response with status 200, a response
      that did not throw but carried another status (nothing happens), or a
      thrown error (transport failure, timeout, or a status axios rejects). */
  datatype Outcome = Ok200 | Non200 | Error

  /** The runner's closure counters `sharedCount` and `errors`. */
  datatype Counters = Counters(shared: int, errors: int)

  /** What a firing leaves behind: the timer keeps running, or it is cleared
      and the job is terminated with the given status and counters. */
  datatype Step = Continue(next: Counters) | Finish(last: Counters, status: Status)
  {
    function Last(): Counters
    {
      match this
      case Continue(c) => c
      case Finish(c, _) => c
    }
  }

  function Max0(n: int): int
  {
    if n < 0 then 0 else n
  }

  /** A firing makes an attempt only while the record is running and the
      target has not been reached. */
  predicate Attempts(c: Counters, amount: int, running: bool)
  {
    running && c.shared < amount
  }

  /** One firing of the interval callback. `running` is the captured record's
      `isRunning`; `o` is what the share request would produce. */
  function TickStep(c: Counters, amount: int, running: bool, o: Outcome): (s: Step)
    // No attempt at all exactly when the firing ends the job unchanged as completed.
    ensures !Attempts(c, amount, running) <==> s == Finish(c, Completed)
    // Exactly a 200 response is counted, by one, and it resets the error streak.
    ensures s.Last().shared == c.shared + (if Attempts(c, amount, running) && o == Ok200 then 1 else 0)
    ensures s.Last().shared != c.shared ==> s.Last().errors == 0
    // A thrown error only lengthens the streak; a non-200 response changes nothing.
    ensures Attempts(c, amount, running) && o == Error ==> s.Last() == Counters(c.shared, c.errors + 1)
    ensures Attempts(c, amount, running) && o == Non200 ==> s == Continue(c)
    // Which firings terminate the job, and as what.
    ensures s.Finish? ==> s.status == Completed || s.status == Failed
    ensures s.Finish? && s.status == Failed <==>
              Attempts(c, amount, running) && o == Error && c.errors + 1 >= MaxErrors
    ensures Attempts(c, amount, running) ==>
              (s.Finish? && s.status == Completed <==> o == Ok200 && c.shared + 1 >= amount)
  {
    if !running || c.shared >= amount then
      Finish(c, Completed)
    else
      match o
      case Ok200 =>
        var n := Counters(c.shared + 1, 0);
        if n.shared >= amount then Finish(n, Completed) else Continue(n)
      case Non200 =>
        Continue(c)
      case Error =>
        var n := Counters(c.shared, c.errors + 1);
        if n.errors >= MaxErrors then Finish(n, Failed) else Continue(n)
  }

  /** Where a sequence of firings leaves a job: still live after all of them,
      or terminated by the `ticks`-th one (after which the timer is cleared). */
  datatype RunEnd = Live(now: Counters) | Ended(final: Counters, status: Status, ticks: nat)
  {
    function Last(): Counters
    {
      match this
      case Live(c) => c
      case Ended(c, _, _) => c
    }
  }

  /** The firings of one job's timer, fed the outcomes `os` in order. While
      the timer is live the record's `isRunning` stays true (it is cleared
      only by the termination protocol, which is always preceded by
      `clearInterval`), so every firing sees `running`. */
  function Run(c: Counters, amount: int, os: seq<Outcome>): (e: RunEnd)
    ensures e.Ended? ==> 1 <= e.ticks <= |os|
    decreases |os|
  {
    if os == [] then Live(c)
    else
      match TickStep(c, amount, true, os[0])
      case Finish(last, st) => Ended(last, st, 1)
      case Continue(next) =>
        match Run(next, amount, os[1..])
        case Live(x) => Live(x)
        case Ended(x, st, n) => Ended(x, st, n + 1)
  }

  /** The number of 200 responses among `os`. */
  function Successes(os: seq<Outcome>): (n: nat)
    ensures n <= |os|
  {
    if os == [] then 0 else (if os[0] == Ok200 then 1 else 0) + Successes(os[1..])
  }

  function Repeat(o: Outcome, n: nat): (os: seq<Outcome>)
    ensures |os| == n && forall i :: 0 <= i < n ==> os[i] == o
  {
    if n == 0 then [] else [o] + Repeat(o, n - 1)
  }

  /** Under sequential firings `sharedCount` never decreases and never goes
      past the target (or past 0 when the target is not positive). */
  lemma {:induction false} RunNeverOvershoots(c: Counters, amount: int, os: seq<Outcome>)
    requires c.shared <= Max0(amount)
    ensures c.shared <= Run(c, amount, os).Last().shared <= Max0(amount)
    decreases |os|
  {
    if os != [] {
      match TickStep(c, amount, true, os[0])
      case Finish(_, _) =>
      case Continue(next) =>
        RunNeverOvershoots(next, amount, os[1..]);
    }
  }

  /** The error streak stays below the limit while the job lives; a job ends
      as failed exactly with a streak of `MaxErrors`; it ends at one of the
      firings it was given. */
  lemma {:induction false} RunErrorStreak(c: Counters, amount: int, os: seq<Outcome>)
    requires 0 <= c.errors < MaxErrors
    ensures Run(c, amount, os).Live? ==> 0 <= Run(c, amount, os).now.errors < MaxErrors
    ensures Run(c, amount, os).Ended? ==> 1 <= Run(c, amount, os).ticks <= |os|
    ensures Run(c, amount, os).Ended? && Run(c, amount, os).status == Failed ==>
              Run(c, amount, os).final.errors == MaxErrors
    ensures Run(c, amount, os).Ended? ==>
              Run(c, amount, os).status == Completed || Run(c, amount, os).status == Failed
    decreases |os|
  {
    if os != [] {
      match TickStep(c, amount, true, os[0])
      case Finish(_, _) =>
      case Continue(next) =>
        RunErrorStreak(next, amount, os[1..]);
    }
  }

  /** Once a firing has terminated the job, later outcomes are never seen:
      the interval is cleared. */
  lemma {:induction false} RunIgnoresLaterOutcomes(c: Counters, amount: int, os: seq<Outcome>, more: seq<Outcome>)
    requires Run(c, amount, os).Ended?
    ensures Run(c, amount, os + more) == Run(c, amount, os)
    decreases |os|
  {
    assert os != [];
    assert (os + more)[0] == os[0];
    match TickStep(c, amount, true, os[0])
    case Finish(_, _) =>
    case Continue(next) =>
      assert (os + more)[1..] == os[1..] + more;
      RunIgnoresLaterOutcomes(next, amount, os[1..], more);
  }

  /** While the target is not reached, the count is the starting count plus
      the 200 responses among the firings delivered. */
  lemma {:induction false} RunCountsSuccesses(c: Counters, amount: int, os: seq<Outcome>)
    requires c.shared < amount
    ensures Run(c, amount, os).Live? ==>
              Run(c, amount, os).now.shared == c.shared + Successes(os)
              && Run(c, amount, os).now.shared < amount
    ensures Run(c, amount, os).Ended? ==>
              Run(c, amount, os).ticks <= |os|
              && Run(c, amount, os).final.shared == c.shared + Successes(os[..Run(c, amount, os).ticks])
    decreases |os|
  {
    if os != [] {
      assert os[..1] == [os[0]];
      assert Successes([os[0]]) == if os[0] == Ok200 then 1 else 0 by {
        assert [os[0]][1..] == [];
      }
      match TickStep(c, amount, true, os[0])
      case Finish(_, _) =>
      case Continue(next) =>
        RunCountsSuccesses(next, amount, os[1..]);
        var e := Run(next, amount, os[1..]);
        if e.Ended? {
          var n := e.ticks;
          assert os[..n + 1][0] == os[0];
          assert os[..n + 1][1..] == os[1..][..n];
        }
    }
  }

  /** A job with target `amount` that starts from `k` shares and then gets
      only 200 responses completes with exactly `amount` shares after
      `amount - k` firings. */
  lemma {:induction false} SuccessesComplete(k: int, e: int, amount: int)
    requires 0 <= k < amount
    ensures Run(Counters(k, e), amount, Repeat(Ok200, amount - k))
            == Ended(Counters(amount, 0), Completed, amount - k)
    decreases amount - k
  {
    var os := Repeat(Ok200, amount - k);
    assert os[0] == Ok200;
    if k + 1 < amount {
      assert os[1..] == Repeat(Ok200, amount - (k + 1));
      SuccessesComplete(k + 1, 0, amount);
    }
  }

  /** A job below its target that meets `MaxErrors - errors` thrown errors in
      a row fails with its count unchanged. */
  lemma {:induction false} ErrorStreakFails(c: Counters, amount: int)
    requires 0 <= c.errors < MaxErrors && c.shared < amount
    ensures Run(c, amount, Repeat(Error, MaxErrors - c.errors))
            == Ended(Counters(c.shared, MaxErrors), Failed, MaxErrors - c.errors)
    decreases MaxErrors - c.errors
  {
    var os := Repeat(Error, MaxErrors - c.errors);
    assert os[0] == Error;
    if c.errors + 1 < MaxErrors {
      assert os[1..] == Repeat(Error, MaxErrors - (c.errors + 1));
      ErrorStreakFails(Counters(c.shared, c.errors + 1), amount);
    }
  }
}
