/**
 * The analytics ledger as values: the statistics kept per command name, how
 * one recorded call changes them, and what a run of calls adds up to.
 */
module Ledger {
  import opened Schema
  import opened Rounding
  import opened KeyOrder

  /** The statistics of one command name: how often it ran and its rounded mean latency. */
  datatype Stats = Stats(usageCount: nat, avgResponseTime: nat)

  /** The statistics held in a row. */
  function RowStats(a: Analytics): Stats
  {
    Stats(a.usageCount, a.avgResponseTime)
  }

  /**
   * The statistics of a command name after one call taking `r` milliseconds:
   * a first call starts the count at 1 with `r` as the average; a later
   * call adds one to the count and folds `r` into the average.
   */
  function Record(prior: Option<Stats>, r: nat): Stats
  {
    match prior
    case None => Stats(1, r)
    case Some(p) => Stats(p.usageCount + 1, RunningAverage(p.avgResponseTime, p.usageCount, r))
  }

  /** The statistics left by recording `samples` in order, starting from no row. */
  function Replay(samples: seq<nat>): Option<Stats>
  {
    if samples == [] then None
    else Some(Record(Replay(samples[..|samples| - 1]), samples[|samples| - 1]))
  }

  /** Each call counts exactly once: k calls leave a row whose count is k, and no calls leave no row. */
  lemma {:induction false} ReplayCount(samples: seq<nat>)
    ensures Replay(samples).Some? <==> samples != []
    ensures Replay(samples).Some? ==> Replay(samples).value.usageCount == |samples|
  {
    if samples != [] {
      ReplayCount(samples[..|samples| - 1]);
    }
  }

  /** Rounding never carries the average outside the range of the samples. */
  lemma {:induction false} ReplayWithin(samples: seq<nat>, lo: nat, hi: nat)
    requires forall i :: 0 <= i < |samples| ==> lo <= samples[i] <= hi
    ensures Replay(samples).Some? ==> lo <= Replay(samples).value.avgResponseTime <= hi
  {
    if samples != [] {
      var init, last := samples[..|samples| - 1], samples[|samples| - 1];
      assert forall i :: 0 <= i < |init| ==> init[i] == samples[i];
      ReplayWithin(init, lo, hi);
      match Replay(init)
      case None =>
      case Some(p) =>
        RunningAverageWithin(p.avgResponseTime, p.usageCount, last, lo, hi);
    }
  }

  /** Equal samples give their exact value as the average. */
  lemma ReplayConstant(samples: seq<nat>, v: nat)
    requires samples != []
    requires forall i :: 0 <= i < |samples| ==> samples[i] == v
    ensures Replay(samples) == Some(Stats(|samples|, v))
  {
    ReplayCount(samples);
    ReplayWithin(samples, v, v);
  }

  /** The total latency of a run of calls. */
  function Sum(samples: seq<nat>): nat
  {
    if samples == [] then 0 else Sum(samples[..|samples| - 1]) + samples[|samples| - 1]
  }

  /**
   * The running average drifts from the exact mean by at most half a
   * millisecond per call after the first: for k calls with average a,
   * |k * a - Sum(samples)| <= k * (k - 1) / 2. One call is exact.
   */
  lemma {:induction false} ReplayNearMean(samples: seq<nat>)
    ensures Replay(samples).Some? ==>
      var k, a := |samples|, Replay(samples).value.avgResponseTime;
      2 * (k * a - Sum(samples)) <= k * (k - 1) && 2 * (Sum(samples) - k * a) <= k * (k - 1)
  {
    if samples != [] {
      var init, last := samples[..|samples| - 1], samples[|samples| - 1];
      ReplayCount(init);
      ReplayNearMean(init);
      match Replay(init)
      case None =>
      case Some(p) =>
        var n := |init|;
        assert Replay(samples) == Some(Stats(n + 1, RunningAverage(p.avgResponseTime, n, last)));
        assert Sum(samples) == Sum(init) + last;
        NearMeanUpdate(n, p.avgResponseTime, last, Sum(init));
    }
  }

  /** One call after the first adds at most half a millisecond of drift to the mean. */
  lemma NearMeanUpdate(n: nat, avg: nat, r: nat, s: nat)
    requires n >= 1
    requires 2 * (n * avg - s) <= n * (n - 1) && 2 * (s - n * avg) <= n * (n - 1)
    ensures var a := RunningAverage(avg, n, r);
      2 * ((n + 1) * a - (s + r)) <= (n + 1) * n && 2 * ((s + r) - (n + 1) * a) <= (n + 1) * n
  {
    var a := RunningAverage(avg, n, r);
    RoundDivNearest(avg * n + r, n + 1);
    var x, y, e := n * avg, (n + 1) * a, n * (n - 1);
    assert avg * n == x;
    assert 2 * (n + 1) * a == 2 * y;
    assert (n + 1) * n == e + 2 * n;
    NearMeanStep(n, x, y, s, r, e);
  }

  /**
   * One rounded update, in linear terms: x = n * avg is the old total, y =
   * (n + 1) * a the new one, e = n * (n - 1) the old error budget.
   */
  lemma NearMeanStep(n: int, x: int, y: int, s: int, r: int, e: int)
    requires n >= 1
    requires 2 * (x - s) <= e && 2 * (s - x) <= e
    requires 2 * y <= 2 * (x + r) + (n + 1) < 2 * y + 2 * (n + 1)
    ensures 2 * (y - (s + r)) <= e + 2 * n && 2 * ((s + r) - y) <= e + 2 * n
  {
  }

  /** Two calls leave a count of 2 and the running average of their latencies. */
  lemma ReplayPair(a: nat, b: nat)
    ensures Replay([a, b]) == Some(Stats(2, RunningAverage(a, 1, b)))
  {
    assert [a][..0] == [];
    assert Replay([a]) == Some(Stats(1, a));
    assert [a, b][..1] == [a];
    assert Replay([a, b]) == Some(Record(Some(Stats(1, a)), b));
  }

  /** Three calls leave a count of 3 and the running average folded twice. */
  lemma ReplayTriple(a: nat, b: nat, c: nat)
    ensures Replay([a, b, c]) == Some(Stats(3, RunningAverage(RunningAverage(a, 1, b), 2, c)))
  {
    assert [a, b, c][..2] == [a, b];
    ReplayPair(a, b);
  }

  /** Calls of 50 then 150 ms average exactly 100 over two calls. */
  lemma ReplayFiftyThenHundredFifty()
    ensures Replay([50, 150]) == Some(Stats(2, 100))
  {
    ReplayPair(50, 150);
    assert RunningAverage(50, 1, 150) == 100;
  }

  /** Calls of 10, 10 and 11 ms average round(31 / 3) = 10 over three calls. */
  lemma ReplayTenTenEleven()
    ensures Replay([10, 10, 11]) == Some(Stats(3, 10))
  {
    ReplayTriple(10, 10, 11);
    assert RunningAverage(10, 1, 10) == 10;
    assert RunningAverage(10, 2, 11) == 10;
  }

  /** Some row of `rows` is for command name `name`. */
  ghost predicate HasRow(rows: map<nat, Analytics>, name: string)
  {
    exists id :: id in rows && rows[id].commandName == name
  }

  /** The ledger's invariant: no two rows share a command name. */
  ghost predicate OneRowPerName(rows: map<nat, Analytics>)
  {
    forall i, j :: i in rows && j in rows && rows[i].commandName == rows[j].commandName ==> i == j
  }

  /** The statistics recorded for `name`, if it has a row. */
  ghost function StatsOf(rows: map<nat, Analytics>, name: string): Option<Stats>
  {
    if HasRow(rows, name) then
      var id :| id in rows && rows[id].commandName == name;
      Some(RowStats(rows[id]))
    else
      None
  }

  /** With one row per name, the statistics of a name are those of its row. */
  lemma StatsOfRow(rows: map<nat, Analytics>, id: nat)
    requires OneRowPerName(rows)
    requires id in rows
    ensures StatsOf(rows, rows[id].commandName) == Some(RowStats(rows[id]))
  {
  }

  /**
   * Writing one row, without changing the name stored under its key, leaves
   * the statistics of every other name as they were.
   */
  lemma StatsOfOtherName(rows: map<nat, Analytics>, id: nat, row: Analytics, name: string)
    requires OneRowPerName(rows) && OneRowPerName(rows[id := row])
    requires id in rows ==> rows[id].commandName == row.commandName
    requires name != row.commandName
    ensures StatsOf(rows[id := row], name) == StatsOf(rows, name)
  {
    var after := rows[id := row];
    if HasRow(rows, name) {
      var k :| k in rows && rows[k].commandName == name;
      assert k != id && after[k] == rows[k];
      StatsOfRow(rows, k);
      StatsOfRow(after, k);
    }
  }

  /**
   * The ledger's invariant, over the rows, their key order and the id
   * counter: each row is stored under its own id, which is positive and
   * below the counter; the key order is ascending; every row has counted
   * at least one call; no two rows share a command name.
   */
  ghost predicate WellFormed(rows: map<nat, Analytics>, order: seq<nat>, next: nat)
  {
    && next >= 1
    && IsKeyOrder(order, rows)
    && (forall id :: id in rows ==> rows[id].id == id && 1 <= id < next && rows[id].usageCount >= 1)
    && OneRowPerName(rows)
  }

  /**
   * Rewriting the row of a name that has one, keeping its id and name, keeps
   * the ledger well formed, gives the name the new row's statistics and
   * leaves every other name's as they were.
   */
  lemma RewriteRow(rows: map<nat, Analytics>, order: seq<nat>, next: nat, row: Analytics)
    requires WellFormed(rows, order, next)
    requires row.id in rows && rows[row.id].commandName == row.commandName && row.usageCount >= 1
    ensures WellFormed(rows[row.id := row], order, next)
    ensures StatsOf(rows[row.id := row], row.commandName) == Some(RowStats(row))
    ensures forall name :: name != row.commandName ==> StatsOf(rows[row.id := row], name) == StatsOf(rows, name)
  {
    WriteRow(rows, row.id, row);
  }

  /**
   * Adding a row for a name with no row under the counter's id, and
   * advancing the counter, keeps the ledger well formed, gives the name the
   * new row's statistics and leaves every other name's as they were.
   */
  lemma AddRow(rows: map<nat, Analytics>, order: seq<nat>, next: nat, row: Analytics)
    requires WellFormed(rows, order, next)
    requires row.id == next && !HasRow(rows, row.commandName) && row.usageCount >= 1
    ensures WellFormed(rows[next := row], order + [next], next + 1)
    ensures StatsOf(rows[next := row], row.commandName) == Some(RowStats(row))
    ensures forall name :: name != row.commandName ==> StatsOf(rows[next := row], name) == StatsOf(rows, name)
  {
    AppendLarger(order, next);
    WriteRow(rows, next, row);
  }

  /**
   * The upsert's write: storing `row` over the row of its own name, or
   * under a new key when its name has no row, keeps one row per name, gives
   * the name the row's statistics and leaves every other name's as they were.
   */
  lemma WriteRow(rows: map<nat, Analytics>, id: nat, row: Analytics)
    requires OneRowPerName(rows)
    requires (id in rows && rows[id].commandName == row.commandName) || (id !in rows && !HasRow(rows, row.commandName))
    ensures OneRowPerName(rows[id := row])
    ensures StatsOf(rows[id := row], row.commandName) == Some(RowStats(row))
    ensures forall name :: name != row.commandName ==> StatsOf(rows[id := row], name) == StatsOf(rows, name)
  {
    var after := rows[id := row];
    assert OneRowPerName(after);
    StatsOfRow(after, id);
    forall name | name != row.commandName
      ensures StatsOf(after, name) == StatsOf(rows, name)
    {
      StatsOfOtherName(rows, id, row, name);
    }
  }
}
