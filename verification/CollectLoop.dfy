/** `spawn_collect_loop`: tick, collect, and again, whatever the collect returns. The ticker is
    `tokio::time::interval` with `MissedTickBehavior::Delay`. */
module CollectLoop {

  type Time = nat

  /** How a collect ends: an error is logged, an abort of the task at an await ends the loop. */
  datatype Ending = Success | Error | Abort

  /** What one round of the loop meets: how late the ticker wakes it, and its collect. */
  datatype Round = Round(lateness: nat, duration: nat, ending: Ending)

  datatype Collect = Collect(start: Time, finish: Time, ending: Ending)

  /** The next deadline: a tick more than `slack` late moves the schedule, any other keeps it. */
  function Delay(deadline: Time, fired: Time, period: nat, slack: nat): (next: Time)
    requires deadline <= fired
    ensures next >= deadline + period && next + slack >= fired + period
  {
    if fired > deadline + slack then fired + period else deadline + period
  }

  function Later(a: Time, b: Time): Time { if a < b then b else a }

  /** The rounds up to and including the first that is aborted. */
  function Survived(rounds: seq<Round>): (n: nat)
    ensures n <= |rounds|
  {
    if rounds == [] then 0
    else if rounds[0].ending.Abort? then 1
    else 1 + Survived(rounds[1..])
  }

  lemma {:induction false} SurvivedAt(rounds: seq<Round>, n: nat)
    requires n < |rounds| && forall k :: 0 <= k < n ==> !rounds[k].ending.Abort?
    ensures Survived(rounds) > n
    ensures rounds[n].ending.Abort? ==> Survived(rounds) == n + 1
  {
    if n > 0 {
      SurvivedAt(rounds[1..], n - 1);
    }
  }

  lemma {:induction false} SurvivedAll(rounds: seq<Round>)
    requires forall k :: 0 <= k < |rounds| ==> !rounds[k].ending.Abort?
    ensures Survived(rounds) == |rounds|
  {
    if rounds != [] {
      SurvivedAll(rounds[1..]);
    }
  }

  /** The schedule: `t0 + k * period`. */
  function Due(t0: Time, period: nat, k: nat): Time {
    if k == 0 then t0 else Due(t0, period, k - 1) + period
  }

  lemma {:induction false} DueIs(t0: Time, period: nat, k: nat)
    ensures Due(t0, period, k) == t0 + k * period
  {
    if k > 0 {
      DueIs(t0, period, k - 1);
    }
  }

  /** The `k`-th collect, from 0, does not start before it is due. */
  ghost predicate NotEarly(log: seq<Collect>, t0: Time, period: nat) {
    forall k :: 0 <= k < |log| ==> Due(t0, period, k) <= log[k].start <= log[k].finish
  }

  ghost predicate NoOverlap(log: seq<Collect>) {
    forall j, k :: 0 <= j < k < |log| ==> log[j].finish <= log[k].start
  }

  /** Consecutive starts are at least the period less the slack apart. */
  ghost predicate Spaced(log: seq<Collect>, period: nat, slack: nat) {
    forall j, k :: 0 <= j < k < |log| && k == j + 1 ==> log[j].start + period <= log[k].start + slack
  }

  ghost predicate Paced(log: seq<Collect>, t0: Time, period: nat, slack: nat) {
    NotEarly(log, t0, period) && NoOverlap(log) && Spaced(log, period, slack)
  }

  /** The log records the rounds it has come through. */
  ghost predicate Records(log: seq<Collect>, rounds: seq<Round>) {
    && |log| <= |rounds|
    && forall k :: 0 <= k < |log| ==>
         log[k].ending == rounds[k].ending && log[k].finish == log[k].start + rounds[k].duration
  }

  ghost predicate Punctual(rounds: seq<Round>, period: nat) {
    forall k :: 0 <= k < |rounds| ==> rounds[k].lateness == 0 && rounds[k].duration <= period
  }

  ghost predicate OnSchedule(log: seq<Collect>, t0: Time, period: nat) {
    forall k :: 0 <= k < |log| ==> log[k].start == Due(t0, period, k)
  }

  lemma RecordsNext(log: seq<Collect>, rounds: seq<Round>, fired: Time)
    requires Records(log, rounds) && |log| < |rounds|
    ensures var r := rounds[|log|];
            Records(log + [Collect(fired, fired + r.duration, r.ending)], rounds)
  {
  }

  // ---------- the schedule ----------

  /** `due[k]` is when the ticker is due for the `k`-th time: one period after it was due before, or after
      it fired if that came more than the slack late. The collect starts at its tick, which comes
      when it is due or, when that has passed, at once, but for the lateness of the ticker. */
  ghost predicate Follows(log: seq<Collect>, due: seq<Time>, rounds: seq<Round>, t0: Time, period: nat, slack: nat) {
    && |due| == |log| <= |rounds|
    && (log != [] ==> due[0] == t0 && log[0].start == t0 + rounds[0].lateness)
    && forall k :: 1 <= k < |log| ==>
         Succeeds(log[k - 1], due[k - 1], log[k].start, due[k], rounds[k].lateness, period, slack)
  }

  ghost predicate Succeeds(last: Collect, lastDue: Time, start: Time, due: Time, lateness: nat, period: nat, slack: nat) {
    && due == (if last.start > lastDue + slack then last.start + period else lastDue + period)
    && start == (if last.finish <= due then due else last.finish) + lateness
  }

  lemma FollowsNext(log: seq<Collect>, due: seq<Time>, rounds: seq<Round>, t0: Time, period: nat, slack: nat,
                    c: Collect, d: Time)
    requires Follows(log, due, rounds, t0, period, slack) && |log| < |rounds|
    requires log == [] ==> d == t0 && c.start == t0 + rounds[0].lateness
    requires log != [] ==> Succeeds(log[|log| - 1], due[|log| - 1], c.start, d, rounds[|log|].lateness, period, slack)
    ensures Follows(log + [c], due + [d], rounds, t0, period, slack)
  {
  }

  lemma {:induction false} DueAt(log: seq<Collect>, due: seq<Time>, rounds: seq<Round>, t0: Time, period: nat, slack: nat,
                                 k: nat)
    requires Follows(log, due, rounds, t0, period, slack) && Records(log, rounds) && k < |log|
    ensures Due(t0, period, k) <= due[k] <= log[k].start <= log[k].finish
  {
    if k > 0 {
      DueAt(log, due, rounds, t0, period, slack, k - 1);
      assert Succeeds(log[k - 1], due[k - 1], log[k].start, due[k], rounds[k].lateness, period, slack);
    }
  }

  lemma {:induction false} OneAfterAnother(log: seq<Collect>, due: seq<Time>, rounds: seq<Round>, t0: Time,
                                           period: nat, slack: nat, j: nat, k: nat)
    requires Follows(log, due, rounds, t0, period, slack) && Records(log, rounds) && j < k < |log|
    ensures log[j].finish <= log[k].start
  {
    assert Succeeds(log[k - 1], due[k - 1], log[k].start, due[k], rounds[k].lateness, period, slack);
    if j < k - 1 {
      OneAfterAnother(log, due, rounds, t0, period, slack, j, k - 1);
    }
  }

  /** Collects never overlap or run ahead of the schedule, and after a late one do not catch up in a burst. */
  lemma {:induction false} FollowsIsPaced(log: seq<Collect>, due: seq<Time>, rounds: seq<Round>, t0: Time,
                                          period: nat, slack: nat)
    requires Follows(log, due, rounds, t0, period, slack) && Records(log, rounds)
    ensures Paced(log, t0, period, slack)
  {
    forall k | 0 <= k < |log| ensures Due(t0, period, k) <= due[k] <= log[k].start <= log[k].finish {
      DueAt(log, due, rounds, t0, period, slack, k);
    }
    forall j, k | 0 <= j < k < |log| ensures log[j].finish <= log[k].start {
      OneAfterAnother(log, due, rounds, t0, period, slack, j, k);
    }
    forall j, k | 0 <= j < k < |log| && k == j + 1 ensures log[j].start + period <= log[k].start + slack {
      assert Succeeds(log[k - 1], due[k - 1], log[k].start, due[k], rounds[k].lateness, period, slack);
    }
  }

  /** No collect is held back: it starts, but for the lateness of its tick, at most a period after the last one
      started, or the moment that has finished if it took longer. */
  ghost predicate Prompt(log: seq<Collect>, rounds: seq<Round>, t0: Time, period: nat)
    requires |log| <= |rounds|
  {
    && (log != [] ==> log[0].start == t0 + rounds[0].lateness)
    && forall k :: 1 <= k < |log| ==> PromptAfter(log[k - 1], log[k].start, rounds[k].lateness, period)
  }

  ghost predicate PromptAfter(last: Collect, start: Time, lateness: nat, period: nat) {
    if last.finish < last.start + period then start <= last.start + period + lateness
    else start == last.finish + lateness
  }

  lemma {:induction false} FollowsIsPrompt(log: seq<Collect>, due: seq<Time>, rounds: seq<Round>, t0: Time,
                                           period: nat, slack: nat)
    requires Follows(log, due, rounds, t0, period, slack) && Records(log, rounds)
    ensures Prompt(log, rounds, t0, period)
  {
    forall k | 1 <= k < |log| ensures PromptAfter(log[k - 1], log[k].start, rounds[k].lateness, period) {
      DueAt(log, due, rounds, t0, period, slack, k - 1);
      assert Succeeds(log[k - 1], due[k - 1], log[k].start, due[k], rounds[k].lateness, period, slack);
    }
  }

  lemma {:induction false} OnTimeAt(log: seq<Collect>, due: seq<Time>, rounds: seq<Round>, t0: Time,
                                    period: nat, slack: nat, k: nat)
    requires Follows(log, due, rounds, t0, period, slack) && Records(log, rounds)
    requires Punctual(rounds, period) && k < |log|
    ensures log[k].start == due[k] == Due(t0, period, k)
  {
    if k > 0 {
      OnTimeAt(log, due, rounds, t0, period, slack, k - 1);
      assert Succeeds(log[k - 1], due[k - 1], log[k].start, due[k], rounds[k].lateness, period, slack);
    }
  }

  /** With ticks on time and collects no longer than the period the schedule is exact. */
  lemma {:induction false} PunctualIsOnSchedule(log: seq<Collect>, due: seq<Time>, rounds: seq<Round>, t0: Time,
                                                period: nat, slack: nat)
    requires Follows(log, due, rounds, t0, period, slack) && Records(log, rounds) && Punctual(rounds, period)
    ensures OnSchedule(log, t0, period)
  {
    forall k | 0 <= k < |log| ensures log[k].start == Due(t0, period, k) {
      OnTimeAt(log, due, rounds, t0, period, slack, k);
    }
  }

  lemma ScheduleLaws(log: seq<Collect>, due: seq<Time>, rounds: seq<Round>, t0: Time, period: nat, slack: nat)
    requires Follows(log, due, rounds, t0, period, slack) && Records(log, rounds)
    ensures Paced(log, t0, period, slack) && Prompt(log, rounds, t0, period)
    ensures Punctual(rounds, period) ==> OnSchedule(log, t0, period)
  {
    FollowsIsPaced(log, due, rounds, t0, period, slack);
    FollowsIsPrompt(log, due, rounds, t0, period, slack);
    if Punctual(rounds, period) {
      PunctualIsOnSchedule(log, due, rounds, t0, period, slack);
    }
  }

  /** The loop over any finite stretch of rounds. Only an abort ends it early; it follows the schedule, so that
      collects never overlap, never run ahead of it, do not catch up in a burst after a late one and are not
      held back either. With ticks on time and collects no longer than the period it keeps time exactly. */
  method RunLoop(t0: Time, period: nat, slack: nat, rounds: seq<Round>) returns (log: seq<Collect>, ghost due: seq<Time>)
    requires period > 0
    ensures |log| == Survived(rounds) && Records(log, rounds) && Follows(log, due, rounds, t0, period, slack)
    ensures Paced(log, t0, period, slack) && Prompt(log, rounds, t0, period)
    ensures Punctual(rounds, period) ==> OnSchedule(log, t0, period)
  {
    log, due := [], [];
    var now, deadline := t0, t0;
    for n := 0 to |rounds|
      invariant |log| == n && Records(log, rounds) && Follows(log, due, rounds, t0, period, slack)
      invariant forall k :: 0 <= k < n ==> !rounds[k].ending.Abort?
      invariant if n == 0 then now == deadline == t0
                else now == log[n - 1].finish && due[n - 1] <= log[n - 1].start
                     && deadline == Delay(due[n - 1], log[n - 1].start, period, slack)
    {
      var round := rounds[n];
      var fired := Later(now, deadline) + round.lateness;
      var c := Collect(fired, fired + round.duration, round.ending);
      RecordsNext(log, rounds, fired);
      FollowsNext(log, due, rounds, t0, period, slack, c, deadline);
      due := due + [deadline];
      deadline := Delay(deadline, fired, period, slack);
      now := c.finish;
      log := log + [c];
      if round.ending.Abort? {
        SurvivedAt(rounds, n);
        ScheduleLaws(log, due, rounds, t0, period, slack);
        return;
      }
    }
    SurvivedAll(rounds);
    ScheduleLaws(log, due, rounds, t0, period, slack);
  }

  // ---------- how many collects ----------

  function StartedBy(log: seq<Collect>, t: Time): nat {
    if log == [] then 0
    else StartedBy(log[..|log| - 1], t) + if log[|log| - 1].start <= t then 1 else 0
  }

  /** By time `t` at most one collect for each whole period since `t0`, and one more, has started. */
  lemma {:induction false} StartsBounded(log: seq<Collect>, t0: Time, period: nat, t: Time)
    requires period > 0
    requires forall k :: 0 <= k < |log| ==> Due(t0, period, k) <= log[k].start
    ensures t < t0 ==> StartedBy(log, t) == 0
    ensures t >= t0 ==> StartedBy(log, t) <= (t - t0) / period + 1
    ensures StartedBy(log, t) <= |log|
  {
    if log != [] {
      var n := |log| - 1;
      StartsBounded(log[..n], t0, period, t);
      if log[n].start <= t {
        PeriodsBefore(n, t0, period, t);
      }
    }
  }

  lemma PeriodsBefore(n: nat, t0: Time, period: nat, t: Time)
    requires period > 0 && Due(t0, period, n) <= t
    ensures t >= t0 && n <= (t - t0) / period
  {
    DueIs(t0, period, n);
    Quotient(n, period, t - t0);
  }

  lemma Quotient(n: nat, period: nat, d: nat)
    requires period > 0 && n * period <= d
    ensures n <= d / period
  {
    var q := d / period;
    assert d < (q + 1) * period;
    assert n >= q + 1 ==> n * period >= (q + 1) * period;
  }
}
