/**
 The cumulative ceiling over runs.  A run is admitted to its paid layer only when
 its whole per-run cap still fits under the daily and the monthly cap, measured
 over the settled rows of the trailing window.
 */
module SpendWindow {
  import opened Wrappers
  import opened SpendCap

  const DAY := 24 * 3600 * 1000
  const MONTH := 30 * 24 * 3600 * 1000

  datatype SpendRow = SpendRow(run: string, startedMs: int, cost: Money)

  /** `attempts` are the calls a run makes once admitted; `settled` is false when it dies before writing its row. */
  datatype Run = Run(id: string, start: int, decide: int, end: int, attempts: seq<Env>, settled: bool)

  datatype Config = Config(perRun: Option<real>, daily: Option<real>, monthly: Option<real>)

  function PerRun(cfg: Config): real { if cfg.perRun.Some? then cfg.perRun.value else 0.0 }

  function SpendSince(rows: seq<SpendRow>, since: int): Money {
    if rows == [] then 0.0
    else
      var row := rows[|rows| - 1];
      SpendSince(rows[..|rows| - 1], since) + if row.startedMs >= since then row.cost else 0.0
  }

  /** An unset or non-positive cap admits everything. */
  predicate Fits(rows: seq<SpendRow>, now: int, cap: Option<real>, windowMs: int, perRun: real) {
    cap.None? || cap.value <= 0.0 || SpendSince(rows, now - windowMs) + perRun <= cap.value
  }

  predicate Admitted(cfg: Config, rows: seq<SpendRow>, now: int) {
    Fits(rows, now, cfg.daily, DAY, PerRun(cfg)) && Fits(rows, now, cfg.monthly, MONTH, PerRun(cfg))
  }

  /** What a run with no earlier calls of its own spends. */
  function SpentBy(cfg: Config, rows: seq<SpendRow>, r: Run): Money {
    if Admitted(cfg, rows, r.decide) then RunCost(CallAll([], r.id, PerRun(cfg), r.attempts), r.id) else 0.0
  }

  /** The ledger after the runs so far. */
  function Ledger(cfg: Config, runs: seq<Run>): seq<SpendRow> {
    if runs == [] then []
    else
      var rows := Ledger(cfg, runs[..|runs| - 1]);
      var r := runs[|runs| - 1];
      if r.settled then rows + [SpendRow(r.id, r.start, SpentBy(cfg, rows, r))] else rows
  }

  /** What every run spent by its own call ledger, whether or not it settled. */
  function Spent(cfg: Config, runs: seq<Run>): seq<SpendRow> {
    if runs == [] then []
    else
      var r := runs[|runs| - 1];
      Spent(cfg, runs[..|runs| - 1]) + [SpendRow(r.id, r.start, SpentBy(cfg, Ledger(cfg, runs[..|runs| - 1]), r))]
  }

  /** The spending of runs that died before settling. */
  function Unsettled(cfg: Config, runs: seq<Run>): seq<SpendRow> {
    if runs == [] then []
    else
      var rows := Unsettled(cfg, runs[..|runs| - 1]);
      var r := runs[|runs| - 1];
      if r.settled then rows
      else rows + [SpendRow(r.id, r.start, SpentBy(cfg, Ledger(cfg, runs[..|runs| - 1]), r))]
  }

  /** Money spent by runs that started within [from, to]. */
  function SpendBetween(rows: seq<SpendRow>, from: int, to: int): Money {
    if rows == [] then 0.0
    else SpendBetween(rows[..|rows| - 1], from, to)
         + if from <= rows[|rows| - 1].startedMs <= to then rows[|rows| - 1].cost else 0.0
  }

  /** Runs follow one another without overlap. */
  predicate InOrder(runs: seq<Run>) {
    && (forall i :: 0 <= i < |runs| ==> runs[i].start <= runs[i].decide <= runs[i].end)
    && (forall i, j :: 0 <= i < j < |runs| ==> runs[i].end <= runs[j].start)
  }

  predicate AllSettled(runs: seq<Run>) { forall i :: 0 <= i < |runs| ==> runs[i].settled }

  /** Every call of every run cost at most the budget it was given. */
  ghost predicate AllHonoured(cfg: Config, runs: seq<Run>) {
    forall i :: 0 <= i < |runs| ==> BudgetsHonoured([], runs[i].id, PerRun(cfg), runs[i].attempts)
  }

  /** `t` does not fall between a run's start and its admission decision. */
  predicate OutsideGaps(runs: seq<Run>, t: int) {
    forall i :: 0 <= i < |runs| ==> !(runs[i].start <= t < runs[i].decide)
  }

  lemma {:induction false} SettledIsSpent(cfg: Config, runs: seq<Run>)
    requires AllSettled(runs)
    ensures Ledger(cfg, runs) == Spent(cfg, runs)
    decreases |runs|
  {
    if runs != [] { SettledIsSpent(cfg, runs[..|runs| - 1]); }
  }

  lemma {:induction false} BetweenWithinSince(rows: seq<SpendRow>, from: int, to: int, since: int)
    requires since <= from
    ensures SpendBetween(rows, from, to) <= SpendSince(rows, since)
    decreases |rows|
  {
    if rows != [] { BetweenWithinSince(rows[..|rows| - 1], from, to, since); }
  }

  /** A run behind its cap spends at most that cap. */
  lemma RunWithinCap(cfg: Config, rows: seq<SpendRow>, r: Run)
    requires PerRun(cfg) >= 0.0 && BudgetsHonoured([], r.id, PerRun(cfg), r.attempts)
    ensures SpentBy(cfg, rows, r) <= PerRun(cfg)
  {
    HonouredBudgetsHoldTheCap([], r.id, PerRun(cfg), r.attempts);
  }

  lemma BetweenAppend(rows: seq<SpendRow>, row: SpendRow, from: int, to: int)
    ensures SpendBetween(rows + [row], from, to)
            == SpendBetween(rows, from, to) + if from <= row.startedMs <= to then row.cost else 0.0
  {
    assert (rows + [row])[..|rows|] == rows;
  }

  /** The spending of the last run comes on top. */
  lemma SpentNext(cfg: Config, runs: seq<Run>, from: int, to: int)
    requires runs != []
    ensures var front, r := runs[..|runs| - 1], runs[|runs| - 1];
            SpendBetween(Spent(cfg, runs), from, to)
            == SpendBetween(Spent(cfg, front), from, to)
               + if from <= r.start <= to then SpentBy(cfg, Ledger(cfg, front), r) else 0.0
  {
    var front, r := runs[..|runs| - 1], runs[|runs| - 1];
    BetweenAppend(Spent(cfg, front), SpendRow(r.id, r.start, SpentBy(cfg, Ledger(cfg, front), r)), from, to);
  }

  /** What was spent is what was recorded plus what was not. */
  lemma {:induction false} SpentIsRecordedOrNot(cfg: Config, runs: seq<Run>, from: int, to: int)
    ensures SpendBetween(Spent(cfg, runs), from, to)
            == SpendBetween(Ledger(cfg, runs), from, to) + SpendBetween(Unsettled(cfg, runs), from, to)
    decreases |runs|
  {
    if runs != [] {
      var front, r := runs[..|runs| - 1], runs[|runs| - 1];
      SpentIsRecordedOrNot(cfg, front, from, to);
      var row := SpendRow(r.id, r.start, SpentBy(cfg, Ledger(cfg, front), r));
      BetweenAppend(Spent(cfg, front), row, from, to);
      BetweenAppend(Ledger(cfg, front), row, from, to);
      BetweenAppend(Unsettled(cfg, front), row, from, to);
    }
  }

  lemma UnsettledGrows(cfg: Config, runs: seq<Run>, from: int, to: int)
    requires runs != []
    ensures SpendBetween(Unsettled(cfg, runs[..|runs| - 1]), from, to) <= SpendBetween(Unsettled(cfg, runs), from, to)
  {
    var front, r := runs[..|runs| - 1], runs[|runs| - 1];
    if !r.settled {
      var row := SpendRow(r.id, r.start, SpentBy(cfg, Ledger(cfg, front), r));
      BetweenAppend(Unsettled(cfg, front), row, from, to);
    }
  }

  lemma {:induction false} NothingUnsettled(cfg: Config, runs: seq<Run>)
    requires AllSettled(runs)
    ensures Unsettled(cfg, runs) == []
    decreases |runs|
  {
    if runs != [] { NothingUnsettled(cfg, runs[..|runs| - 1]); }
  }

  lemma FrontFacts(cfg: Config, runs: seq<Run>, t: int)
    requires runs != [] && InOrder(runs) && AllHonoured(cfg, runs) && OutsideGaps(runs, t)
    ensures var front := runs[..|runs| - 1]; InOrder(front) && AllHonoured(cfg, front) && OutsideGaps(front, t)
  {
    var front := runs[..|runs| - 1];
    forall i | 0 <= i < |front| ensures front[i] == runs[i] {}
  }

  lemma AdmittedRunFits(cfg: Config, rows: seq<SpendRow>, r: Run, windowMs: int, cap: real, t: int)
    requires PerRun(cfg) >= 0.0 && cap > 0.0 && t >= r.decide && Admitted(cfg, rows, r.decide)
    requires (windowMs == DAY && cfg.daily == Some(cap)) || (windowMs == MONTH && cfg.monthly == Some(cap))
    requires BudgetsHonoured([], r.id, PerRun(cfg), r.attempts)
    ensures SpendBetween(rows, t - windowMs, t) + SpentBy(cfg, rows, r) <= cap
  {
    RunWithinCap(cfg, rows, r);
    BetweenWithinSince(rows, t - windowMs, t, r.decide - windowMs);
  }

  lemma AdmittedAfter(cfg: Config, front: seq<Run>, r: Run, windowMs: int, cap: real, t: int)
    requires PerRun(cfg) >= 0.0 && cap > 0.0 && t >= r.decide && Admitted(cfg, Ledger(cfg, front), r.decide)
    requires (windowMs == DAY && cfg.daily == Some(cap)) || (windowMs == MONTH && cfg.monthly == Some(cap))
    requires BudgetsHonoured([], r.id, PerRun(cfg), r.attempts)
    ensures SpendBetween(Spent(cfg, front), t - windowMs, t) + SpentBy(cfg, Ledger(cfg, front), r)
            <= cap + SpendBetween(Unsettled(cfg, front), t - windowMs, t)
  {
    SpentIsRecordedOrNot(cfg, front, t - windowMs, t);
    AdmittedRunFits(cfg, Ledger(cfg, front), r, windowMs, cap, t);
  }

  /**
   When runs do not overlap and honour their call budgets, the money spent by
   runs started in the trailing window exceeds the window's cap by at most what
   unsettled runs of the window spent, at any instant outside a
   start-to-decision gap.
   */
  lemma {:induction false} WindowBound(cfg: Config, runs: seq<Run>, windowMs: int, cap: real, t: int)
    requires PerRun(cfg) >= 0.0 && cap > 0.0
    requires (windowMs == DAY && cfg.daily == Some(cap)) || (windowMs == MONTH && cfg.monthly == Some(cap))
    requires InOrder(runs) && AllHonoured(cfg, runs) && OutsideGaps(runs, t)
    ensures SpendBetween(Spent(cfg, runs), t - windowMs, t) <= cap + SpendBetween(Unsettled(cfg, runs), t - windowMs, t)
    decreases |runs|
  {
    if runs != [] {
      var front, r, from := runs[..|runs| - 1], runs[|runs| - 1], t - windowMs;
      FrontFacts(cfg, runs, t);
      SpentNext(cfg, runs, from, t);
      UnsettledGrows(cfg, runs, from, t);
      if t >= r.decide && Admitted(cfg, Ledger(cfg, front), r.decide) {
        AdmittedAfter(cfg, front, r, windowMs, cap, t);
      } else {
        LastDoesNotCount(cfg, runs, from, t);
        WindowBound(cfg, front, windowMs, cap, t);
      }
    }
  }

  lemma LastDoesNotCount(cfg: Config, runs: seq<Run>, from: int, t: int)
    requires runs != [] && OutsideGaps(runs, t)
    requires var r := runs[|runs| - 1]; t < r.decide || !Admitted(cfg, Ledger(cfg, runs[..|runs| - 1]), r.decide)
    ensures SpendBetween(Spent(cfg, runs), from, t) == SpendBetween(Spent(cfg, runs[..|runs| - 1]), from, t)
  {
    SpentNext(cfg, runs, from, t);
  }

  /** When every run settles, the cap itself is never exceeded. */
  lemma WindowCeiling(cfg: Config, runs: seq<Run>, windowMs: int, cap: real, t: int)
    requires PerRun(cfg) >= 0.0 && cap > 0.0
    requires (windowMs == DAY && cfg.daily == Some(cap)) || (windowMs == MONTH && cfg.monthly == Some(cap))
    requires InOrder(runs) && AllSettled(runs) && AllHonoured(cfg, runs) && OutsideGaps(runs, t)
    ensures SpendBetween(Spent(cfg, runs), t - windowMs, t) <= cap
  {
    WindowBound(cfg, runs, windowMs, cap, t);
    NothingUnsettled(cfg, runs);
  }

  /** The decision instants themselves are outside every gap, so the ceiling holds with the admitted run included. */
  lemma CeilingAtDecision(cfg: Config, runs: seq<Run>, windowMs: int, cap: real)
    requires PerRun(cfg) >= 0.0 && cap > 0.0 && runs != []
    requires (windowMs == DAY && cfg.daily == Some(cap)) || (windowMs == MONTH && cfg.monthly == Some(cap))
    requires InOrder(runs) && AllSettled(runs) && AllHonoured(cfg, runs)
    ensures var d := runs[|runs| - 1].decide; SpendBetween(Spent(cfg, runs), d - windowMs, d) <= cap
  {
    var n := |runs| - 1;
    forall i | 0 <= i < |runs| ensures !(runs[i].start <= runs[n].decide < runs[i].decide) {
      if i < n { assert runs[i].end <= runs[n].start; }
    }
    WindowCeiling(cfg, runs, windowMs, cap, runs[n].decide);
  }

  // ----- the ledger table -----

  class SpendLedger {
    var rows: seq<SpendRow>

    constructor ()
      ensures rows == [] && Valid()
    {
      rows := [];
    }

    /** The run id is the primary key. */
    ghost predicate Valid()
      reads this
    {
      forall i, j :: 0 <= i < j < |rows| ==> rows[i].run != rows[j].run
    }

    /** Insert, or overwrite the row of the same run. */
    method RecordRunSpend(run: string, startedMs: int, cost: Money)
      requires Valid()
      modifies this
      ensures Valid()
      ensures (forall i :: 0 <= i < |old(rows)| ==> old(rows)[i].run != run) ==>
                rows == old(rows) + [SpendRow(run, startedMs, cost)]
      ensures forall i :: 0 <= i < |old(rows)| && old(rows)[i].run == run ==>
                rows == old(rows)[i := SpendRow(run, startedMs, cost)]
    {
      var i := 0;
      while i < |rows| && rows[i].run != run
        invariant 0 <= i <= |rows|
        invariant rows == old(rows)
        invariant forall j :: 0 <= j < i ==> rows[j].run != run
      {
        i := i + 1;
      }
      if i < |rows| {
        rows := rows[i := SpendRow(run, startedMs, cost)];
      } else {
        rows := rows + [SpendRow(run, startedMs, cost)];
      }
    }

    method Admit(cfg: Config, now: int) returns (reason: Option<string>)
      ensures reason.None? <==> Admitted(cfg, rows, now)
    {
      if !Fits(rows, now, cfg.daily, DAY, PerRun(cfg)) {
        return Some("agent_skipped_cumulative_cap_daily");
      }
      if !Fits(rows, now, cfg.monthly, MONTH, PerRun(cfg)) {
        return Some("agent_skipped_cumulative_cap_monthly");
      }
      return None;
    }

    /** The spending part of one run that settles. */
    method RunOnce(cfg: Config, r: Run, calls: CallLedger) returns (cost: Money)
      requires Valid() && calls.calls == []
      requires forall i :: 0 <= i < |rows| ==> rows[i].run != r.id
      modifies this, calls
      ensures Valid() && cost == SpentBy(cfg, old(rows), r)
      ensures rows == old(rows) + [SpendRow(r.id, r.start, cost)]
    {
      var reason := Admit(cfg, r.decide);
      if reason.None? {
        var skipped := calls.RunAgents(r.id, PerRun(cfg), r.attempts);
      }
      cost := RunCost(calls.calls, r.id);
      RecordRunSpend(r.id, r.start, cost);
    }

    /** Runs one after another leave exactly the ledger the ceiling theorem speaks of. */
    method RunMany(cfg: Config, runs: seq<Run>)
      requires rows == [] && AllSettled(runs)
      requires forall i, j :: 0 <= i < j < |runs| ==> runs[i].id != runs[j].id
      modifies this
      ensures Valid() && rows == Spent(cfg, runs)
    {
      for n := 0 to |runs|
        invariant Valid() && rows == Ledger(cfg, runs[..n])
        invariant |rows| == n && forall i :: 0 <= i < n ==> rows[i].run == runs[i].id
      {
        assert runs[..n + 1][..n] == runs[..n];
        var calls := new CallLedger();
        var cost := RunOnce(cfg, runs[n], calls);
      }
      assert runs[..|runs|] == runs;
      SettledIsSpent(cfg, runs);
    }
  }
}
