/**
 Exactly which schedules of runs keep the cumulative ceiling, whatever the runs
 spend within their budgets.  A schedule says when each run starts, decides and
 ends, and whether it settles; the calls are left open.
 */
module SpendCeiling {
  import opened Wrappers
  import opened SpendCap
  import opened SpendWindow

  predicate NoCap(cap: Option<real>) { cap.None? || cap.value <= 0.0 }

  /** Of the two cumulative caps this one is configured. */
  predicate OnlyCap(cfg: Config, windowMs: int, cap: real) {
    && cap > 0.0
    && ((windowMs == DAY && cfg.daily == Some(cap) && NoCap(cfg.monthly))
        || (windowMs == MONTH && cfg.monthly == Some(cap) && NoCap(cfg.daily)))
  }

  lemma AdmittedIff(cfg: Config, windowMs: int, cap: real, rows: seq<SpendRow>, now: int)
    requires OnlyCap(cfg, windowMs, cap)
    ensures Admitted(cfg, rows, now) <==> SpendSince(rows, now - windowMs) + PerRun(cfg) <= cap
  {}

  ghost predicate SameSchedule(runs: seq<Run>, plan: seq<Run>) {
    |runs| == |plan| && forall i :: 0 <= i < |plan| ==> runs[i] == plan[i].(attempts := runs[i].attempts)
  }

  /** Whatever the runs of this schedule pay within their budgets, the window ending at `t` stays within the cap. */
  ghost predicate CeilingHolds(cfg: Config, plan: seq<Run>, windowMs: int, cap: real, t: int) {
    forall runs :: SameSchedule(runs, plan) && AllHonoured(cfg, runs) ==>
      SpendBetween(Spent(cfg, runs), t - windowMs, t) <= cap
  }

  /** How many runs start at or after `from`. */
  function StartedSince(plan: seq<Run>, from: int): nat {
    if plan == [] then 0
    else StartedSince(plan[..|plan| - 1], from) + if plan[|plan| - 1].start >= from then 1 else 0
  }

  /** The last run's decision sees every earlier run of the window: it is settled and not yet out of that window. */
  ghost predicate AllSeen(plan: seq<Run>, from: int, windowMs: int)
    requires plan != []
  {
    forall i :: 0 <= i < |plan| - 1 && plan[i].start >= from ==>
      plan[i].settled && plan[i].start >= plan[|plan| - 1].decide - windowMs
  }

  lemma HonouredFront(cfg: Config, runs: seq<Run>)
    requires runs != [] && AllHonoured(cfg, runs)
    ensures AllHonoured(cfg, runs[..|runs| - 1])
    ensures BudgetsHonoured([], runs[|runs| - 1].id, PerRun(cfg), runs[|runs| - 1].attempts)
  {}

  // ----- schedules that keep it -----

  /** Without a per-run budget nothing is spent. */
  lemma NoBudgetNoSpend(cfg: Config, rows: seq<SpendRow>, r: Run)
    requires PerRun(cfg) <= 0.0
    ensures SpentBy(cfg, rows, r) == 0.0
  {
    NothingAfterTheCap([], r.id, PerRun(cfg), r.attempts);
  }

  lemma {:induction false} NobodyAdmitted(cfg: Config, runs: seq<Run>, windowMs: int, cap: real, from: int, to: int)
    requires OnlyCap(cfg, windowMs, cap) && (PerRun(cfg) > cap || PerRun(cfg) <= 0.0)
    ensures SpendBetween(Spent(cfg, runs), from, to) == 0.0
    decreases |runs|
  {
    if runs != [] {
      var front, r := runs[..|runs| - 1], runs[|runs| - 1];
      NobodyAdmitted(cfg, front, windowMs, cap, from, to);
      SpentNext(cfg, runs, from, to);
      AdmittedIff(cfg, windowMs, cap, Ledger(cfg, front), r.decide);
      if PerRun(cfg) <= 0.0 { NoBudgetNoSpend(cfg, Ledger(cfg, front), r); }
    }
  }

  /** Every run of the window spends at most the per-run cap. */
  lemma {:induction false} AtMostPerRun(cfg: Config, runs: seq<Run>, p: Money, from: int, to: int)
    requires p == PerRun(cfg) && AllHonoured(cfg, runs)
    ensures SpendBetween(Spent(cfg, runs), from, to) <= Multiple(StartedSince(runs, from), p)
    decreases |runs|
  {
    if runs != [] {
      var front, r := runs[..|runs| - 1], runs[|runs| - 1];
      HonouredFront(cfg, runs);
      AtMostPerRun(cfg, front, p, from, to);
      SpentNext(cfg, runs, from, to);
      RunWithinCap(cfg, Ledger(cfg, front), r);
    }
  }

  /** Runs that are all settled and in view are summed by the admission. */
  lemma {:induction false} SeenRows(cfg: Config, runs: seq<Run>, from: int, to: int, since: int)
    requires forall i :: 0 <= i < |runs| && runs[i].start >= from ==> runs[i].settled && runs[i].start >= since
    ensures SpendBetween(Spent(cfg, runs), from, to) <= SpendSince(Ledger(cfg, runs), since)
    decreases |runs|
  {
    if runs != [] {
      var front, r := runs[..|runs| - 1], runs[|runs| - 1];
      forall i | 0 <= i < |front| ensures front[i] == runs[i] {}
      SeenRows(cfg, front, from, to, since);
      SpentNext(cfg, runs, from, to);
      if r.settled {
        var rows := Ledger(cfg, front);
        assert (rows + [SpendRow(r.id, r.start, SpentBy(cfg, rows, r))])[..|rows|] == rows;
      }
    }
  }

  lemma SeenFront(plan: seq<Run>, from: int, windowMs: int)
    requires |plan| >= 2 && InOrder(plan) && AllSeen(plan, from, windowMs)
    ensures InOrder(plan[..|plan| - 1]) && AllSeen(plan[..|plan| - 1], from, windowMs)
  {
    var front, n := plan[..|plan| - 1], |plan| - 1;
    forall i | 0 <= i < |front| ensures front[i] == plan[i] {}
    assert plan[n - 1].decide <= plan[n].decide;
  }

  lemma {:induction false} SeenCeiling(cfg: Config, runs: seq<Run>, windowMs: int, cap: real, t: int)
    requires OnlyCap(cfg, windowMs, cap) && PerRun(cfg) >= 0.0
    requires runs != [] && InOrder(runs) && AllHonoured(cfg, runs) && AllSeen(runs, t - windowMs, windowMs)
    ensures SpendBetween(Spent(cfg, runs), t - windowMs, t) <= cap
    decreases |runs|
  {
    var front, r, from := runs[..|runs| - 1], runs[|runs| - 1], t - windowMs;
    HonouredFront(cfg, runs);
    SpentNext(cfg, runs, from, t);
    if Admitted(cfg, Ledger(cfg, front), r.decide) {
      AdmittedIff(cfg, windowMs, cap, Ledger(cfg, front), r.decide);
      forall i | 0 <= i < |front| ensures front[i] == runs[i] {}
      SeenRows(cfg, front, from, t, r.decide - windowMs);
      RunWithinCap(cfg, Ledger(cfg, front), r);
    } else if front != [] {
      SeenFront(runs, from, windowMs);
      SeenCeiling(cfg, front, windowMs, cap, t);
    }
  }

  // ----- schedules that do not -----

  /** One call that costs the whole per-run cap. */
  function Pay(p: Money): Env { Env(true, true, true, true, true, None, Answered(p, true, true)) }

  lemma OneCall(id: string, p: Money)
    requires p > 0.0
    ensures RunCost(CallAll([], id, p, [Pay(p)]), id) == p && BudgetsHonoured([], id, p, [Pay(p)])
  {
    var none: seq<Env> := [];
    assert [Pay(p)][..0] == none && CallAll([], id, p, none) == [];
    PaidStep([], id, p, Pay(p));
    assert BudgetsHonoured([], id, p, none);
  }

  /** The runs from `b` on, `k` of them, and the last run. */
  predicate Payer(i: int, b: nat, k: nat, last: nat) { b <= i < b + k || i == last }

  /** The payers spend the whole per-run cap if admitted, all others nothing. */
  ghost predicate Billed(cfg: Config, runs: seq<Run>, b: nat, k: nat, p: Money) {
    && p == PerRun(cfg) && p > 0.0 && runs != []
    && forall i :: 0 <= i < |runs| ==> runs[i].attempts == if Payer(i, b, k, |runs| - 1) then [Pay(p)] else []
  }

  lemma BilledSpends(cfg: Config, runs: seq<Run>, b: nat, k: nat, p: Money, i: nat, rows: seq<SpendRow>)
    requires Billed(cfg, runs, b, k, p) && i < |runs|
    ensures SpentBy(cfg, rows, runs[i])
            == if Payer(i, b, k, |runs| - 1) && Admitted(cfg, rows, runs[i].decide) then p else 0.0
  {
    OneCall(runs[i].id, p);
  }

  lemma BilledHonoured(cfg: Config, runs: seq<Run>, b: nat, k: nat, p: Money)
    requires Billed(cfg, runs, b, k, p)
    ensures AllHonoured(cfg, runs)
  {
    forall i | 0 <= i < |runs| ensures BudgetsHonoured([], runs[i].id, PerRun(cfg), runs[i].attempts) {
      OneCall(runs[i].id, p);
    }
  }

  /** How many of the first `m` runs, the last left out, pay. */
  function PayersBefore(m: nat, b: nat, k: nat): nat { if m <= b then 0 else if m >= b + k then k else m - b }

  lemma PayersNext(m: nat, b: nat, k: nat, p: Money)
    ensures Multiple(PayersBefore(m + 1, b, k), p)
            == Multiple(PayersBefore(m, b, k), p) + Share(m, b, k, p)
  {}

  lemma PayersNextButOne(m: nat, b: nat, k: nat, p: Money)
    requires m > b && k > 0
    ensures PayersBefore(m, b, k) > 0 && PayersBefore(m + 1, b, k) > 0
    ensures Multiple(PayersBefore(m + 1, b, k) - 1, p)
            == Multiple(PayersBefore(m, b, k) - 1, p) + Share(m, b, k, p)
  {}

  lemma {:induction false} MultipleGrows(m: nat, n: nat, p: Money)
    requires m <= n
    ensures Multiple(m, p) <= Multiple(n, p)
    decreases n
  {
    if m < n { MultipleGrows(m, n - 1, p); }
  }

  lemma PrefixNext(runs: seq<Run>, m: nat)
    requires m < |runs|
    ensures runs[..m + 1] != [] && runs[..m + 1][..m] == runs[..m] && runs[..m + 1][m] == runs[m]
  {}

  lemma LedgerNext(cfg: Config, runs: seq<Run>, m: nat, since: int)
    requires m < |runs|
    ensures var rows, r := Ledger(cfg, runs[..m]), runs[m];
            SpendSince(Ledger(cfg, runs[..m + 1]), since)
            == SpendSince(rows, since) + if r.settled && r.start >= since then SpentBy(cfg, rows, r) else 0.0
  {
    PrefixNext(runs, m);
    var rows, r := Ledger(cfg, runs[..m]), runs[m];
    assert (rows + [SpendRow(r.id, r.start, SpentBy(cfg, rows, r))])[..|rows|] == rows;
  }

  function Share(m: nat, b: nat, k: nat, p: Money): Money { if b <= m < b + k then p else 0.0 }

  /** One more run adds at most the per-run cap to what an admission sees, and nothing unless it pays in view. */
  lemma LedgerGrows(cfg: Config, runs: seq<Run>, b: nat, k: nat, p: Money, m: nat, since: int)
    requires Billed(cfg, runs, b, k, p) && m + 1 < |runs|
    ensures SpendSince(Ledger(cfg, runs[..m + 1]), since)
            <= SpendSince(Ledger(cfg, runs[..m]), since)
               + if runs[m].settled && runs[m].start >= since then Share(m, b, k, p) else 0.0
  {
    LedgerNext(cfg, runs, m, since);
    BilledSpends(cfg, runs, b, k, p, m, Ledger(cfg, runs[..m]));
  }

  /** No admission sees more than the payers before it. */
  lemma {:induction false} LedgerWithin(cfg: Config, runs: seq<Run>, b: nat, k: nat, p: Money, m: nat, since: int)
    requires Billed(cfg, runs, b, k, p) && m < |runs|
    ensures SpendSince(Ledger(cfg, runs[..m]), since) <= Multiple(PayersBefore(m, b, k), p)
    decreases m
  {
    if m > 0 {
      LedgerWithin(cfg, runs, b, k, p, m - 1, since);
      LedgerGrows(cfg, runs, b, k, p, m - 1, since);
      PayersNext(m - 1, b, k, p);
    }
  }

  /** Behind a payer out of view, one payer less. */
  lemma {:induction false} LedgerMisses(cfg: Config, runs: seq<Run>, b: nat, k: nat, p: Money, u: nat, m: nat,
                                        since: int)
    requires Billed(cfg, runs, b, k, p) && b <= u < b + k && u < m < |runs|
    requires !runs[u].settled || runs[u].start < since
    ensures PayersBefore(m, b, k) > 0
    ensures SpendSince(Ledger(cfg, runs[..m]), since) <= Multiple(PayersBefore(m, b, k) - 1, p)
    decreases m
  {
    if u + 1 == m {
      UnseenAddsNothing(cfg, runs, b, k, p, u, since);
    } else {
      var l := m - 1;
      LedgerMisses(cfg, runs, b, k, p, u, l, since);
      MissNext(cfg, runs, b, k, p, l, since);
    }
  }

  lemma MissNext(cfg: Config, runs: seq<Run>, b: nat, k: nat, p: Money, l: nat, since: int)
    requires Billed(cfg, runs, b, k, p) && b < l && k > 0 && l + 1 < |runs| && PayersBefore(l, b, k) > 0
    requires SpendSince(Ledger(cfg, runs[..l]), since) <= Multiple(PayersBefore(l, b, k) - 1, p)
    ensures PayersBefore(l + 1, b, k) > 0
    ensures SpendSince(Ledger(cfg, runs[..l + 1]), since) <= Multiple(PayersBefore(l + 1, b, k) - 1, p)
  {
    LedgerGrows(cfg, runs, b, k, p, l, since);
    PayersNextButOne(l, b, k, p);
  }

  lemma UnseenAddsNothing(cfg: Config, runs: seq<Run>, b: nat, k: nat, p: Money, u: nat, since: int)
    requires Billed(cfg, runs, b, k, p) && b <= u < b + k && u + 1 < |runs|
    requires !runs[u].settled || runs[u].start < since
    ensures PayersBefore(u + 1, b, k) > 0
    ensures SpendSince(Ledger(cfg, runs[..u + 1]), since) <= Multiple(PayersBefore(u + 1, b, k) - 1, p)
  {
    LedgerGrows(cfg, runs, b, k, p, u, since);
    LedgerWithin(cfg, runs, b, k, p, u, since);
    assert PayersBefore(u + 1, b, k) - 1 == PayersBefore(u, b, k);
  }

  /** Every payer before the last run is admitted. */
  lemma PayerPays(cfg: Config, runs: seq<Run>, windowMs: int, cap: real, b: nat, k: nat, p: Money, m: nat)
    requires OnlyCap(cfg, windowMs, cap) && Billed(cfg, runs, b, k, p) && m + 1 < |runs| && Multiple(k, p) <= cap
    ensures SpentBy(cfg, Ledger(cfg, runs[..m]), runs[m]) == Share(m, b, k, p)
  {
    var rows, r := Ledger(cfg, runs[..m]), runs[m];
    BilledSpends(cfg, runs, b, k, p, m, rows);
    if b <= m < b + k {
      LedgerWithin(cfg, runs, b, k, p, m, r.decide - windowMs);
      PayersNext(m, b, k, p);
      MultipleGrows(m + 1 - b, k, p);
      AdmittedIff(cfg, windowMs, cap, rows, r.decide);
    }
  }

  ghost predicate PayersWithin(runs: seq<Run>, b: nat, k: nat, from: int, to: int) {
    runs != [] && forall i :: 0 <= i < |runs| && Payer(i, b, k, |runs| - 1) ==> from <= runs[i].start <= to
  }

  lemma {:induction false} PayersPay(cfg: Config, runs: seq<Run>, windowMs: int, cap: real, b: nat, k: nat, p: Money,
                                     m: nat, from: int, to: int)
    requires OnlyCap(cfg, windowMs, cap) && Billed(cfg, runs, b, k, p) && m < |runs| && Multiple(k, p) <= cap
    requires PayersWithin(runs, b, k, from, to)
    ensures SpendBetween(Spent(cfg, runs[..m]), from, to) == Multiple(PayersBefore(m, b, k), p)
    decreases m
  {
    if m > 0 {
      PayersPay(cfg, runs, windowMs, cap, b, k, p, m - 1, from, to);
      PrefixNext(runs, m - 1);
      SpentNext(cfg, runs[..m], from, to);
      PayerPays(cfg, runs, windowMs, cap, b, k, p, m - 1);
      PayersNext(m - 1, b, k, p);
    }
  }

  /** And so is the last one, on top of them all. */
  lemma LastPays(cfg: Config, runs: seq<Run>, windowMs: int, cap: real, b: nat, k: nat, p: Money, u: nat,
                 from: int, to: int)
    requires OnlyCap(cfg, windowMs, cap) && Billed(cfg, runs, b, k, p) && Multiple(k, p) <= cap
    requires b <= u < b + k <= |runs| - 1
    requires PayersWithin(runs, b, k, from, to)
    requires !runs[u].settled || runs[u].start < runs[|runs| - 1].decide - windowMs
    ensures SpendBetween(Spent(cfg, runs), from, to) == Multiple(k + 1, p)
  {
    var n := |runs| - 1;
    PayersPay(cfg, runs, windowMs, cap, b, k, p, n, from, to);
    LastIsAdmitted(cfg, runs, windowMs, cap, b, k, p, u);
    SpentNext(cfg, runs, from, to);
    assert PayersBefore(n, b, k) == k && Payer(n, b, k, n);
  }

  lemma LastIsAdmitted(cfg: Config, runs: seq<Run>, windowMs: int, cap: real, b: nat, k: nat, p: Money, u: nat)
    requires OnlyCap(cfg, windowMs, cap) && Billed(cfg, runs, b, k, p) && Multiple(k, p) <= cap
    requires b <= u < b + k <= |runs| - 1
    requires !runs[u].settled || runs[u].start < runs[|runs| - 1].decide - windowMs
    ensures SpentBy(cfg, Ledger(cfg, runs[..|runs| - 1]), runs[|runs| - 1]) == p
  {
    var n := |runs| - 1;
    var rows, r := Ledger(cfg, runs[..n]), runs[n];
    LedgerMisses(cfg, runs, b, k, p, u, n, r.decide - windowMs);
    assert PayersBefore(n, b, k) == k && Multiple(k, p) == Multiple(k - 1, p) + p;
    AdmittedIff(cfg, windowMs, cap, rows, r.decide);
    BilledSpends(cfg, runs, b, k, p, n, rows);
  }

  /** The largest number of per-run caps that fits. */
  lemma {:induction false} LargestFitting(p: Money, cap: real, n: nat) returns (k: nat)
    requires 0.0 < p <= cap < Multiple(n, p)
    ensures 1 <= k < n && Multiple(k, p) <= cap < Multiple(k + 1, p)
    decreases n
  {
    assert Multiple(1, p) == Multiple(0, p) + p;
    if Multiple(n - 1, p) <= cap { k := n - 1; } else { k := LargestFitting(p, cap, n - 1); }
  }

  /** The runs of a window are the last ones. */
  lemma {:induction false} WindowIsSuffix(plan: seq<Run>, from: int) returns (a: nat)
    requires InOrder(plan)
    ensures a <= |plan| && StartedSince(plan, from) == |plan| - a
    ensures forall i :: 0 <= i < |plan| ==> (plan[i].start >= from <==> i >= a)
    decreases |plan|
  {
    a := 0;
    if plan != [] {
      var front, n := plan[..|plan| - 1], |plan| - 1;
      forall i | 0 <= i < |front| ensures front[i] == plan[i] {}
      a := WindowIsSuffix(front, from);
      if plan[n].start < from {
        a := n + 1;
        forall i | 0 <= i < n ensures plan[i].start < from { assert plan[i].end <= plan[n].start; }
      }
    }
  }

  function WithBill(plan: seq<Run>, b: nat, k: nat, p: Money): (runs: seq<Run>)
    ensures |runs| == |plan|
    ensures forall i :: 0 <= i < |plan| ==>
              runs[i] == plan[i].(attempts := if Payer(i, b, k, |plan| - 1) then [Pay(p)] else [])
  {
    seq(|plan|, i requires 0 <= i < |plan| =>
      plan[i].(attempts := if Payer(i, b, k, |plan| - 1) then [Pay(p)] else []))
  }

  /** `k` runs in a row of the window that include `u`, and the last run, lie in the window. */
  lemma PayersInWindow(plan: seq<Run>, from: int, t: int, a: nat, u: nat, k: nat) returns (b: nat)
    requires InOrder(plan) && plan != [] && plan[|plan| - 1].start <= t
    requires a <= |plan| && forall i :: 0 <= i < |plan| ==> (plan[i].start >= from <==> i >= a)
    requires a <= u < |plan| - 1 && 1 <= k < |plan| - a
    ensures b <= u < b + k <= |plan| - 1 && PayersWithin(plan, b, k, from, t)
  {
    b := if u + 1 >= a + k then u + 1 - k else a;
    forall i | 0 <= i < |plan| && Payer(i, b, k, |plan| - 1) ensures from <= plan[i].start <= t {
      if i < |plan| - 1 { assert plan[i].end <= plan[|plan| - 1].start; }
    }
  }

  /** The run that the last decision does not see. */
  ghost predicate OutOfView(plan: seq<Run>, from: int, windowMs: int, u: nat)
    requires plan != []
  {
    && u < |plan| - 1 && plan[u].start >= from
    && !(plan[u].settled && plan[u].start >= plan[|plan| - 1].decide - windowMs)
  }

  lemma BillPays(cfg: Config, plan: seq<Run>, windowMs: int, cap: real, t: int, u: nat, b: nat, k: nat, p: Money)
    requires OnlyCap(cfg, windowMs, cap) && plan != [] && p == PerRun(cfg) && p > 0.0 && Multiple(k, p) <= cap
    requires OutOfView(plan, t - windowMs, windowMs, u) && b <= u < b + k <= |plan| - 1
    requires PayersWithin(plan, b, k, t - windowMs, t)
    ensures var runs := WithBill(plan, b, k, p);
            && SameSchedule(runs, plan) && AllHonoured(cfg, runs)
            && SpendBetween(Spent(cfg, runs), t - windowMs, t) == Multiple(k + 1, p)
  {
    var runs := WithBill(plan, b, k, p);
    BillFacts(cfg, plan, b, k, p, t - windowMs, t);
    var last := |plan| - 1;
    assert runs[u].settled == plan[u].settled && runs[u].start == plan[u].start;
    assert runs[last].decide == plan[last].decide;
    BilledHonoured(cfg, runs, b, k, p);
    LastPays(cfg, runs, windowMs, cap, b, k, p, u, t - windowMs, t);
  }

  lemma BillFacts(cfg: Config, plan: seq<Run>, b: nat, k: nat, p: Money, from: int, to: int)
    requires plan != [] && p == PerRun(cfg) && p > 0.0 && PayersWithin(plan, b, k, from, to)
    ensures var runs := WithBill(plan, b, k, p);
            SameSchedule(runs, plan) && Billed(cfg, runs, b, k, p) && PayersWithin(runs, b, k, from, to)
  {}

  /** A run out of the last decision's view lets the window take one per-run cap more than fits. */
  lemma Overrun(cfg: Config, plan: seq<Run>, windowMs: int, cap: real, t: int) returns (runs: seq<Run>, k: nat)
    requires OnlyCap(cfg, windowMs, cap) && plan != [] && InOrder(plan) && plan[|plan| - 1].start <= t
    requires 0.0 < PerRun(cfg) <= cap < Multiple(StartedSince(plan, t - windowMs), PerRun(cfg))
    requires !AllSeen(plan, t - windowMs, windowMs)
    ensures SameSchedule(runs, plan) && AllHonoured(cfg, runs)
    ensures k >= 1 && Multiple(k, PerRun(cfg)) <= cap < Multiple(k + 1, PerRun(cfg))
    ensures SpendBetween(Spent(cfg, runs), t - windowMs, t) == Multiple(k + 1, PerRun(cfg))
  {
    var from, p: Money := t - windowMs, PerRun(cfg);
    var v :|
      0 <= v < |plan| - 1 && plan[v].start >= from
      && !(plan[v].settled && plan[v].start >= plan[|plan| - 1].decide - windowMs);
    var u: nat := v;
    assert OutOfView(plan, from, windowMs, u);
    var a := WindowIsSuffix(plan, from);
    k := LargestFitting(p, cap, StartedSince(plan, from));
    var b := PayersInWindow(plan, from, t, a, u, k);
    BillPays(cfg, plan, windowMs, cap, t, u, b, k, p);
    runs := WithBill(plan, b, k, p);
  }

  // ----- the exact condition -----

  /** In terms of the schedule: a budget nobody gets, few enough runs, or a last decision that sees all earlier ones. */
  ghost predicate Bounded(cfg: Config, plan: seq<Run>, windowMs: int, cap: real, t: int)
    requires plan != []
  {
    || PerRun(cfg) > cap
    || Multiple(StartedSince(plan, t - windowMs), PerRun(cfg)) <= cap
    || AllSeen(plan, t - windowMs, windowMs)
  }

  lemma SameScheduleFacts(runs: seq<Run>, plan: seq<Run>, from: int, windowMs: int)
    requires SameSchedule(runs, plan) && plan != []
    ensures InOrder(plan) ==> InOrder(runs)
    ensures AllSeen(plan, from, windowMs) ==> AllSeen(runs, from, windowMs)
  {
    forall i | 0 <= i < |plan|
      ensures runs[i].start == plan[i].start && runs[i].decide == plan[i].decide && runs[i].end == plan[i].end
      ensures runs[i].settled == plan[i].settled
    {}
  }

  lemma {:induction false} SameStarts(runs: seq<Run>, plan: seq<Run>, from: int)
    requires SameSchedule(runs, plan)
    ensures StartedSince(runs, from) == StartedSince(plan, from)
    decreases |plan|
  {
    if plan != [] {
      var front, rest := runs[..|plan| - 1], plan[..|plan| - 1];
      assert SameSchedule(front, rest);
      SameStarts(front, rest, from);
    }
  }

  lemma BoundedHolds(cfg: Config, plan: seq<Run>, windowMs: int, cap: real, t: int, runs: seq<Run>)
    requires OnlyCap(cfg, windowMs, cap) && plan != [] && InOrder(plan) && Bounded(cfg, plan, windowMs, cap, t)
    requires SameSchedule(runs, plan) && AllHonoured(cfg, runs)
    ensures SpendBetween(Spent(cfg, runs), t - windowMs, t) <= cap
  {
    var from := t - windowMs;
    SameScheduleFacts(runs, plan, from, windowMs);
    if PerRun(cfg) > cap || PerRun(cfg) <= 0.0 {
      NobodyAdmitted(cfg, runs, windowMs, cap, from, t);
    } else if AllSeen(plan, from, windowMs) {
      SeenCeiling(cfg, runs, windowMs, cap, t);
    } else {
      SameStarts(runs, plan, from);
      AtMostPerRun(cfg, runs, PerRun(cfg), from, t);
    }
  }

  /**
   For an ordered schedule whose last run has started by `t`: the ceiling holds at
   `t` whatever the runs pay within their budgets, exactly when the per-run cap
   exceeds the window's, or the runs of the window could all spend it and still
   fit, or the last run's decision sees every earlier run of the window.
   */
  lemma CeilingHoldsIff(cfg: Config, plan: seq<Run>, windowMs: int, cap: real, t: int)
    requires OnlyCap(cfg, windowMs, cap) && plan != [] && InOrder(plan) && plan[|plan| - 1].start <= t
    ensures CeilingHolds(cfg, plan, windowMs, cap, t) <==> Bounded(cfg, plan, windowMs, cap, t)
  {
    if Bounded(cfg, plan, windowMs, cap, t) {
      forall runs | SameSchedule(runs, plan) && AllHonoured(cfg, runs)
        ensures SpendBetween(Spent(cfg, runs), t - windowMs, t) <= cap
      {
        BoundedHolds(cfg, plan, windowMs, cap, t, runs);
      }
    } else {
      if PerRun(cfg) <= 0.0 { NonPositiveMultiple(StartedSince(plan, t - windowMs), PerRun(cfg)); }
      var runs, k := Overrun(cfg, plan, windowMs, cap, t);
    }
  }

  lemma {:induction false} NonPositiveMultiple(n: nat, p: real)
    requires p <= 0.0
    ensures Multiple(n, p) <= 0.0
  {
    if n > 0 { NonPositiveMultiple(n - 1, p); }
  }

  /** Runs that start after `t` change nothing. */
  lemma {:induction false} LaterRunsDoNotCount(cfg: Config, runs: seq<Run>, m: nat, from: int, t: int)
    requires m <= |runs| && forall i :: m <= i < |runs| ==> runs[i].start > t
    ensures SpendBetween(Spent(cfg, runs), from, t) == SpendBetween(Spent(cfg, runs[..m]), from, t)
    decreases |runs|
  {
    if m < |runs| {
      var front := runs[..|runs| - 1];
      forall i | 0 <= i < |front| ensures front[i] == runs[i] {}
      LaterRunsDoNotCount(cfg, front, m, from, t);
      SpentNext(cfg, runs, from, t);
      assert front[..m] == runs[..m];
    } else {
      assert runs[..m] == runs;
    }
  }

  // ----- the two ways to lose sight of a run -----

  const ONE_DOLLAR := Config(Some(1.0), Some(1.0), None)

  lemma TwoOverrun(plan: seq<Run>, t: int) returns (runs: seq<Run>)
    requires |plan| == 2 && InOrder(plan) && t - DAY <= plan[0].start && plan[1].start <= t
    requires !plan[0].settled || plan[0].start < plan[1].decide - DAY
    ensures SameSchedule(runs, plan) && AllHonoured(ONE_DOLLAR, runs)
    ensures SpendBetween(Spent(ONE_DOLLAR, runs), t - DAY, t) == 2.0
  {
    var from := t - DAY;
    assert plan[..1][..0] == [] && plan[..1][0] == plan[0];
    assert StartedSince(plan[..1], from) == 1 && StartedSince(plan, from) == 2;
    assert Multiple(1, 1.0) == 1.0 && Multiple(2, 1.0) == 2.0 && Multiple(3, 1.0) == 3.0;
    var k;
    runs, k := Overrun(ONE_DOLLAR, plan, DAY, 1.0, t);
    MultipleIsProduct(k, 1.0);
  }

  /** A run that dies after paying but before settling lets the next run break the daily ceiling. */
  lemma CrashBeforeSettleBreaksCeiling() returns (runs: seq<Run>)
    ensures |runs| == 2 && InOrder(runs) && AllHonoured(ONE_DOLLAR, runs) && OutsideGaps(runs, runs[1].decide)
    ensures !runs[0].settled && runs[1].settled
    ensures SpendBetween(Spent(ONE_DOLLAR, runs), runs[1].decide - DAY, runs[1].decide) == 2.0
  {
    var plan := [Run("a", 0, 0, 1, [], false), Run("b", 2, 2, 3, [], true)];
    runs := TwoOverrun(plan, 2);
    SameScheduleFacts(runs, plan, 2 - DAY, DAY);
  }

  /**
   Inside a start-to-decision gap the trailing window may hold two settled runs
   whose admissions saw different windows.
   */
  lemma GapExceedsCeiling() returns (runs: seq<Run>)
    ensures |runs| == 2 && InOrder(runs) && AllSettled(runs) && AllHonoured(ONE_DOLLAR, runs)
    ensures !OutsideGaps(runs, runs[1].start)
    ensures SpendBetween(Spent(ONE_DOLLAR, runs), runs[1].start - DAY, runs[1].start) == 2.0
  {
    var plan := [Run("a", 0, 0, 1, [], true), Run("b", DAY, DAY + 1, DAY + 2, [], true)];
    runs := TwoOverrun(plan, DAY);
    SameScheduleFacts(runs, plan, 0, DAY);
    assert runs[1].start <= runs[1].start < runs[1].decide;
  }
}
