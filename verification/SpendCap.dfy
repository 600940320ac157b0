/**
 The per-run spend cap.  Every paid call passes a gate that reads the run's own
 ledger rows; its cost is written to its row afterwards.  The environment decides
 which infrastructure step fails and what a call costs.
 */
module SpendCap {
  import opened Wrappers

  type Money = r: real | r >= 0.0

  /** What the audit after a call forgives. */
  const TOLERANCE: real := 0.000000001

  datatype Status = Open | Unavailable | Failed | SchemaInvalid | Ok | CapExceededPost

  /** One row of the call ledger; the cost is missing until the call is finished. */
  datatype CallRow = CallRow(run: string, status: Status, cost: Option<Money>)

  datatype Outcome =
    | Raised                                              // the SDK raises; the row records zero
    | Answered(cost: Money, valid: bool, recorded: bool)  // the final ledger write may itself fail

  /** What the environment does to one attempt. */
  datatype Env = Env(readable: bool, keyPresent: bool, cliFound: bool, policyOk: bool, insertable: bool,
                     requested: Option<real>, outcome: Outcome)

  datatype StopReason = Disabled | LedgerError | NoKey | Error | Invalid | Done | Overshot | Escaped

  // ----- what the gate reads -----

  function RecordedCost(c: CallRow): Money { if c.cost.Some? then c.cost.value else 0.0 }

  /** The recorded costs of one run, in call order. */
  function Costs(calls: seq<CallRow>, run: string): seq<Money> {
    if calls == [] then []
    else
      var rest := Costs(calls[..|calls| - 1], run);
      var c := calls[|calls| - 1];
      if c.run == run then rest + [RecordedCost(c)] else rest
  }

  function Sum(costs: seq<Money>): Money {
    if costs == [] then 0.0 else Sum(costs[..|costs| - 1]) + costs[|costs| - 1]
  }

  function RunCost(calls: seq<CallRow>, run: string): Money { Sum(Costs(calls, run)) }

  /** The largest positive cost, if there is one. */
  function MaxPositive(costs: seq<Money>): (m: Option<Money>)
    ensures m.None? ==> forall c :: c in costs ==> c == 0.0
    ensures m.Some? ==> m.value > 0.0 && m.value in costs && forall c :: c in costs ==> c <= m.value
  {
    if costs == [] then None
    else
      var rest := MaxPositive(costs[..|costs| - 1]);
      var c := costs[|costs| - 1];
      assert costs == costs[..|costs| - 1] + [c];
      if c > 0.0 && (rest.None? || c > rest.value) then Some(c) else rest
  }

  function Remaining(calls: seq<CallRow>, run: string, cap: real): real { cap - RunCost(calls, run) }

  /** The gate of a single call. */
  predicate GateAdmits(calls: seq<CallRow>, run: string, cap: real) {
    var remaining := Remaining(calls, run, cap);
    var largest := MaxPositive(Costs(calls, run));
    cap > 0.0 && remaining > 0.0 && (largest.None? || remaining >= largest.value)
  }

  /** The gate the agent loop applies first, with its branches in its own order. */
  predicate LoopSkips(calls: seq<CallRow>, run: string, cap: real) {
    var remaining := Remaining(calls, run, cap);
    var largest := MaxPositive(Costs(calls, run));
    if largest.Some? && remaining < largest.value then true else remaining <= 0.0
  }

  function Budget(calls: seq<CallRow>, run: string, cap: real, requested: Option<real>): real {
    var remaining := Remaining(calls, run, cap);
    if requested.None? then remaining else if requested.value < remaining then requested.value else remaining
  }

  function Settle(calls: seq<CallRow>, run: string, cap: real, outcome: Outcome): (seq<CallRow>, StopReason) {
    match outcome
    case Raised => (calls + [CallRow(run, Failed, Some(0.0))], Error)
    case Answered(cost, valid, recorded) =>
      if !recorded then (calls + [CallRow(run, Open, None)], Escaped)
      else if !valid then (calls + [CallRow(run, SchemaInvalid, Some(cost))], Invalid)
      else if RunCost(calls + [CallRow(run, Ok, Some(cost))], run) > cap + TOLERANCE then
        (calls + [CallRow(run, CapExceededPost, Some(cost))], Overshot)
      else (calls + [CallRow(run, Ok, Some(cost))], Done)
  }

  /** One call: the gate, the infrastructure checks in order, then the paid attempt. */
  function CallStep(calls: seq<CallRow>, run: string, cap: real, env: Env): (seq<CallRow>, StopReason) {
    if cap <= 0.0 then (calls, Disabled)
    else if !env.readable then (calls, LedgerError)
    else if !GateAdmits(calls, run, cap) then (calls, Disabled)
    else if !env.keyPresent then
      (if env.insertable then calls + [CallRow(run, Unavailable, Some(0.0))] else calls, NoKey)
    else if !env.cliFound || !env.policyOk then (calls, Error)
    else if !env.insertable then (calls, LedgerError)
    else Settle(calls, run, cap, env.outcome)
  }

  /** The environment let the call reach the paid attempt and reported a cost. */
  predicate Reaches(calls: seq<CallRow>, run: string, cap: real, env: Env) {
    && env.readable && env.keyPresent && env.cliFound && env.policyOk && env.insertable
    && GateAdmits(calls, run, cap) && env.outcome.Answered? && env.outcome.recorded
  }

  function CallAll(calls: seq<CallRow>, run: string, cap: real, envs: seq<Env>): seq<CallRow> {
    if envs == [] then calls
    else CallStep(CallAll(calls, run, cap, envs[..|envs| - 1]), run, cap, envs[|envs| - 1]).0
  }

  // ----- the run's books -----

  ghost predicate AllBelow(costs: seq<Money>, bound: Money) { forall c :: c in costs ==> c < bound }

  /** The books of one run: under the cap, or over it by the last call alone, which is strictly the costliest. */
  ghost predicate OneOvershoot(costs: seq<Money>, cap: real) {
    Sum(costs) <= cap
    || (&& costs != []
        && Sum(costs[..|costs| - 1]) < cap
        && AllBelow(costs[..|costs| - 1], costs[|costs| - 1]))
  }

  lemma CostsAppend(calls: seq<CallRow>, run: string, c: CallRow)
    ensures Costs(calls + [c], run) == Costs(calls, run) + if c.run == run then [RecordedCost(c)] else []
    ensures c.run == run ==> RunCost(calls + [c], run) == RunCost(calls, run) + RecordedCost(c)
  {
    assert (calls + [c])[..|calls|] == calls;
    if c.run == run {
      var costs := Costs(calls, run);
      assert (costs + [RecordedCost(c)])[..|costs|] == costs;
    }
  }

  /** What a call leaves in the books: nothing, a zero, or the reported cost behind an open gate. */
  lemma CallBooks(calls: seq<CallRow>, run: string, cap: real, env: Env)
    ensures var before, after := Costs(calls, run), Costs(CallStep(calls, run, cap, env).0, run);
            if Reaches(calls, run, cap, env) then after == before + [env.outcome.cost]
            else after == before || (GateAdmits(calls, run, cap) && after == before + [0.0 as Money])
  {
    var after := CallStep(calls, run, cap, env).0;
    if |after| > |calls| {
      var c := after[|calls|];
      assert after == calls + [c];
      CostsAppend(calls, run, c);
    }
  }

  lemma SumAppend(costs: seq<Money>, c: Money)
    ensures Sum(costs + [c]) == Sum(costs) + c
  {
    assert (costs + [c])[..|costs|] == costs;
  }

  /** A gated cost either fits or is the one overshoot. */
  lemma GatedCostKeepsBooks(calls: seq<CallRow>, run: string, cap: real, cost: Money)
    requires GateAdmits(calls, run, cap)
    ensures OneOvershoot(Costs(calls, run) + [cost], cap)
  {
    var costs := Costs(calls, run);
    SumAppend(costs, cost);
    assert (costs + [cost])[..|costs|] == costs;
  }

  /**
   Whatever calls cost, a run overshoots its cap by at most one call; that call
   is strictly costlier than every earlier one (the first paid call included).
   */
  lemma CallKeepsBooks(calls: seq<CallRow>, run: string, cap: real, env: Env)
    requires OneOvershoot(Costs(calls, run), cap)
    ensures OneOvershoot(Costs(CallStep(calls, run, cap, env).0, run), cap)
  {
    CallBooks(calls, run, cap, env);
    if Reaches(calls, run, cap, env) {
      GatedCostKeepsBooks(calls, run, cap, env.outcome.cost);
    } else if GateAdmits(calls, run, cap) {
      GatedCostKeepsBooks(calls, run, cap, 0.0);
    }
  }

  lemma {:induction false} AtMostOneOvershoot(calls: seq<CallRow>, run: string, cap: real, envs: seq<Env>)
    requires OneOvershoot(Costs(calls, run), cap)
    ensures OneOvershoot(Costs(CallAll(calls, run, cap, envs), run), cap)
    decreases |envs|
  {
    if envs != [] {
      AtMostOneOvershoot(calls, run, cap, envs[..|envs| - 1]);
      CallKeepsBooks(CallAll(calls, run, cap, envs[..|envs| - 1]), run, cap, envs[|envs| - 1]);
    }
  }

  /** Once the cap is reached, no later call leaves any row. */
  lemma {:induction false} NothingAfterTheCap(calls: seq<CallRow>, run: string, cap: real, envs: seq<Env>)
    requires RunCost(calls, run) >= cap
    ensures CallAll(calls, run, cap, envs) == calls
    decreases |envs|
  {
    if envs != [] {
      NothingAfterTheCap(calls, run, cap, envs[..|envs| - 1]);
    }
  }

  /** Every answered call cost at most the budget it was given. */
  ghost predicate BudgetsHonoured(calls: seq<CallRow>, run: string, cap: real, envs: seq<Env>)
    decreases |envs|
  {
    envs != [] ==>
      var before := CallAll(calls, run, cap, envs[..|envs| - 1]);
      var env := envs[|envs| - 1];
      && BudgetsHonoured(calls, run, cap, envs[..|envs| - 1])
      && (Reaches(before, run, cap, env) ==> env.outcome.cost <= Budget(before, run, cap, env.requested))
  }

  lemma {:induction false} HonouredBudgetsHoldTheCap(calls: seq<CallRow>, run: string, cap: real, envs: seq<Env>)
    requires RunCost(calls, run) <= cap && BudgetsHonoured(calls, run, cap, envs)
    ensures RunCost(CallAll(calls, run, cap, envs), run) <= cap
    decreases |envs|
  {
    if envs != [] {
      var front, env := envs[..|envs| - 1], envs[|envs| - 1];
      HonouredBudgetsHoldTheCap(calls, run, cap, front);
      var before := CallAll(calls, run, cap, front);
      CallBooks(before, run, cap, env);
      if Reaches(before, run, cap, env) { SumAppend(Costs(before, run), env.outcome.cost); }
      else { SumAppend(Costs(before, run), 0.0); }
    }
  }

  /**
   A call is reported as an overshoot exactly when it is valid, recorded, and took
   the run past the cap and its tolerance.
   */
  lemma OvershootMarkedIff(calls: seq<CallRow>, run: string, cap: real, env: Env)
    ensures CallStep(calls, run, cap, env).1.Overshot? <==>
            && Reaches(calls, run, cap, env) && env.outcome.valid
            && RunCost(CallStep(calls, run, cap, env).0, run) > cap + TOLERANCE
  {
    if Reaches(calls, run, cap, env) {
      CostsAppend(calls, run, CallRow(run, Ok, Some(env.outcome.cost)));
      CostsAppend(calls, run, CallRow(run, CapExceededPost, Some(env.outcome.cost)));
    }
  }

  /** The agent loop's own gate agrees with the call's: what it lets through is never refused on the cap. */
  lemma LoopGateMirrorsCallGate(calls: seq<CallRow>, run: string, cap: real, env: Env)
    requires cap > 0.0 && env.readable
    ensures LoopSkips(calls, run, cap) <==> CallStep(calls, run, cap, env).1.Disabled?
  {}

  /** What the loop skips the wrapper would have left without a row, under a cap of zero or an unreadable ledger too. */
  lemma SkippedCallsChangeNothing(calls: seq<CallRow>, run: string, cap: real, env: Env)
    requires LoopSkips(calls, run, cap)
    ensures CallStep(calls, run, cap, env).0 == calls
  {}

  /** Other runs' books are never touched. */
  lemma OtherRunsUntouched(calls: seq<CallRow>, run: string, cap: real, env: Env, other: string)
    requires other != run
    ensures Costs(CallStep(calls, run, cap, env).0, other) == Costs(calls, other)
  {
    var after := CallStep(calls, run, cap, env).0;
    if |after| > |calls| {
      assert after == calls + [after[|calls|]];
      CostsAppend(calls, other, after[|calls|]);
    }
  }

  /** A cost whose ledger write fails is invisible to the gate: any number of them pass. */
  lemma {:induction false} UnrecordedCostsNeverBind(calls: seq<CallRow>, run: string, cap: real, envs: seq<Env>)
    requires GateAdmits(calls, run, cap)
    requires forall e :: e in envs ==>
               && e.readable && e.keyPresent && e.cliFound && e.policyOk && e.insertable
               && e.outcome.Answered? && !e.outcome.recorded
    ensures |CallAll(calls, run, cap, envs)| == |calls| + |envs|
    ensures RunCost(CallAll(calls, run, cap, envs), run) == RunCost(calls, run)
    ensures GateAdmits(CallAll(calls, run, cap, envs), run, cap)
    decreases |envs|
  {
    if envs != [] {
      var n := |envs| - 1;
      UnrecordedCostsNeverBind(calls, run, cap, envs[..n]);
      var before := CallAll(calls, run, cap, envs[..n]);
      assert envs[n] in envs;
      CostsAppend(before, run, CallRow(run, Open, None));
      MaxIgnoresZero(Costs(before, run));
    }
  }

  lemma MaxIgnoresZero(costs: seq<Money>)
    ensures MaxPositive(costs + [0.0]) == MaxPositive(costs)
  {
    assert (costs + [0.0 as Money])[..|costs|] == costs;
  }

  // ----- paid money -----

  /** The call reaches the paid attempt and is answered, whether or not its cost is then recorded. */
  predicate Pays(calls: seq<CallRow>, run: string, cap: real, env: Env) {
    && env.readable && env.keyPresent && env.cliFound && env.policyOk && env.insertable
    && GateAdmits(calls, run, cap) && env.outcome.Answered?
  }

  /** What the calls cost, by the bill and not by the books. */
  function PaidMoney(calls: seq<CallRow>, run: string, cap: real, envs: seq<Env>): Money {
    if envs == [] then 0.0
    else
      var front, env := envs[..|envs| - 1], envs[|envs| - 1];
      PaidMoney(calls, run, cap, front)
      + if Pays(CallAll(calls, run, cap, front), run, cap, env) then env.outcome.cost else 0.0
  }

  /** Every paid call stayed within the budget it was given. */
  ghost predicate PaymentsHonoured(calls: seq<CallRow>, run: string, cap: real, envs: seq<Env>)
    decreases |envs|
  {
    envs != [] ==>
      var front, env := envs[..|envs| - 1], envs[|envs| - 1];
      var before := CallAll(calls, run, cap, front);
      && PaymentsHonoured(calls, run, cap, front)
      && (Pays(before, run, cap, env) ==> env.outcome.cost <= Budget(before, run, cap, env.requested))
  }

  /** Some paid call's cost was not recorded. */
  ghost predicate HidesCost(calls: seq<CallRow>, run: string, cap: real, envs: seq<Env>)
    decreases |envs|
  {
    && envs != []
    && (var front, env := envs[..|envs| - 1], envs[|envs| - 1];
        HidesCost(calls, run, cap, front)
        || (Pays(CallAll(calls, run, cap, front), run, cap, env) && !env.outcome.recorded))
  }

  /** After a hidden cost no further call reaches the paid attempt. */
  ghost predicate HiddenCostIsLast(calls: seq<CallRow>, run: string, cap: real, envs: seq<Env>)
    decreases |envs|
  {
    envs != [] ==>
      var front, env := envs[..|envs| - 1], envs[|envs| - 1];
      && HiddenCostIsLast(calls, run, cap, front)
      && (HidesCost(calls, run, cap, front) ==> !Pays(CallAll(calls, run, cap, front), run, cap, env))
  }

  /** One more call, in the books and on the bill. */
  lemma PaidStep(calls: seq<CallRow>, run: string, cap: real, env: Env)
    ensures RunCost(CallStep(calls, run, cap, env).0, run)
            == RunCost(calls, run)
               + if Pays(calls, run, cap, env) && env.outcome.recorded then env.outcome.cost else 0.0
  {
    CallBooks(calls, run, cap, env);
    SumAppend(Costs(calls, run), 0.0);
    if Reaches(calls, run, cap, env) { SumAppend(Costs(calls, run), env.outcome.cost); }
  }

  /**
   With honoured budgets the money paid stays within the cap, as long as no call
   whose cost went unrecorded is followed by another paid call.
   */
  lemma {:induction false} PaidWithinCap(calls: seq<CallRow>, run: string, cap: real, envs: seq<Env>)
    requires RunCost(calls, run) <= cap && PaymentsHonoured(calls, run, cap, envs)
    requires HiddenCostIsLast(calls, run, cap, envs)
    ensures RunCost(calls, run) + PaidMoney(calls, run, cap, envs) <= cap
    ensures !HidesCost(calls, run, cap, envs) ==>
              RunCost(CallAll(calls, run, cap, envs), run) == RunCost(calls, run) + PaidMoney(calls, run, cap, envs)
    decreases |envs|
  {
    if envs != [] {
      var front, env := envs[..|envs| - 1], envs[|envs| - 1];
      PaidWithinCap(calls, run, cap, front);
      PaidStep(CallAll(calls, run, cap, front), run, cap, env);
    }
  }

  /** A call that is answered, but whose cost is not recorded. */
  function Unrecorded(cost: Money): Env { Env(true, true, true, true, true, None, Answered(cost, true, false)) }

  function HiddenCalls(cost: Money, n: nat): (envs: seq<Env>)
    ensures |envs| == n && forall e :: e in envs ==> e == Unrecorded(cost)
  {
    if n == 0 then [] else HiddenCalls(cost, n - 1) + [Unrecorded(cost)]
  }

  /** The gate sees nothing of them. */
  lemma HiddenBooks(run: string, cap: Money, n: nat)
    requires cap > 0.0
    ensures var before := CallAll([], run, cap, HiddenCalls(cap, n));
            RunCost(before, run) == 0.0 && Pays(before, run, cap, Unrecorded(cap))
  {
    UnrecordedCostsNeverBind([], run, cap, HiddenCalls(cap, n));
  }

  /** `n` times an amount, as repeated addition. */
  function Multiple(n: nat, x: real): real { if n == 0 then 0.0 else Multiple(n - 1, x) + x }

  lemma {:induction false} MultipleIsProduct(n: nat, x: real)
    ensures Multiple(n, x) == n as real * x
  {
    if n > 0 {
      MultipleIsProduct(n - 1, x);
      OneMore((n - 1) as real, x);
    }
  }

  lemma OneMore(a: real, x: real)
    ensures (a + 1.0) * x == a * x + x
  {}

  lemma {:induction false} HiddenCostsAdd(run: string, cap: Money, n: nat)
    requires cap > 0.0
    ensures PaymentsHonoured([], run, cap, HiddenCalls(cap, n))
    ensures PaidMoney([], run, cap, HiddenCalls(cap, n)) == Multiple(n, cap)
    decreases n
  {
    if n > 0 {
      HiddenCostsAdd(run, cap, n - 1);
      HiddenBooks(run, cap, n - 1);
      var envs, front := HiddenCalls(cap, n), HiddenCalls(cap, n - 1);
      assert envs[..n - 1] == front && envs[n - 1] == Unrecorded(cap);
    }
  }

  /** Otherwise the bill has no bound: any number of honoured calls can each cost the whole cap. */
  lemma HiddenCostsPileUp(run: string, cap: Money, n: nat)
    requires cap > 0.0
    ensures PaymentsHonoured([], run, cap, HiddenCalls(cap, n))
    ensures PaidMoney([], run, cap, HiddenCalls(cap, n)) == n as real * cap
  {
    HiddenCostsAdd(run, cap, n);
    MultipleIsProduct(n, cap);
  }

  // ----- the ledger object -----

  class CallLedger {
    var calls: seq<CallRow>

    constructor ()
      ensures calls == []
    {
      calls := [];
    }

    method InsertAgentCall(run: string) returns (id: nat)
      modifies this
      ensures calls == old(calls) + [CallRow(run, Open, None)] && id == |old(calls)|
    {
      id := |calls|;
      calls := calls + [CallRow(run, Open, None)];
    }

    method FinishAgentCall(id: nat, status: Status, cost: Money)
      requires id < |calls|
      modifies this
      ensures calls == old(calls)[id := old(calls)[id].(status := status, cost := Some(cost))]
    {
      calls := calls[id := calls[id].(status := status, cost := Some(cost))];
    }

    /** The paid attempt: open the row, call, write the cost, then re-read the total. */
    method Attempt(run: string, cap: real, outcome: Outcome) returns (stop: StopReason)
      modifies this
      ensures (calls, stop) == Settle(old(calls), run, cap, outcome)
    {
      var id := InsertAgentCall(run);
      assert calls[..id] == old(calls);
      match outcome {
        case Raised =>
          FinishAgentCall(id, Failed, 0.0);
          assert calls == old(calls) + [CallRow(run, Failed, Some(0.0))];
          return Error;
        case Answered(cost, valid, recorded) =>
          if !recorded { return Escaped; }
          if !valid {
            FinishAgentCall(id, SchemaInvalid, cost);
            assert calls == old(calls) + [CallRow(run, SchemaInvalid, Some(cost))];
            return Invalid;
          }
          FinishAgentCall(id, Ok, cost);
          assert calls == old(calls) + [CallRow(run, Ok, Some(cost))];
          if RunCost(calls, run) > cap + TOLERANCE {
            FinishAgentCall(id, CapExceededPost, cost);
            assert calls == old(calls) + [CallRow(run, CapExceededPost, Some(cost))];
            return Overshot;
          }
          return Done;
      }
    }

    /** One call of the wrapper. */
    method CallModel(run: string, cap: Option<real>, env: Env) returns (stop: StopReason)
      modifies this
      ensures (calls, stop) == CallStep(old(calls), run, if cap.Some? then cap.value else 0.0, env)
    {
      if cap.None? || cap.value <= 0.0 { return Disabled; }
      if !env.readable { return LedgerError; }
      var remaining := cap.value - RunCost(calls, run);
      if remaining <= 0.0 { return Disabled; }
      var largest := MaxPositive(Costs(calls, run));
      if largest.Some? && remaining < largest.value { return Disabled; }
      if !env.keyPresent {
        if env.insertable {
          var id := InsertAgentCall(run);
          FinishAgentCall(id, Unavailable, 0.0);
          assert calls == old(calls) + [CallRow(run, Unavailable, Some(0.0))];
        }
        return NoKey;
      }
      if !env.cliFound || !env.policyOk { return Error; }
      if !env.insertable { return LedgerError; }
      stop := Attempt(run, cap.value, env.outcome);
    }

    /** The agent loop of one run: skip on the loop's own gate, else call.  An unreadable ledger stops either gate. */
    method RunAgents(run: string, cap: real, envs: seq<Env>) returns (skipped: nat)
      modifies this
      ensures calls == CallAll(old(calls), run, cap, envs)
      ensures OneOvershoot(Costs(old(calls), run), cap) ==> OneOvershoot(Costs(calls, run), cap)
    {
      skipped := 0;
      for i := 0 to |envs|
        invariant calls == CallAll(old(calls), run, cap, envs[..i])
      {
        assert envs[..i + 1][..i] == envs[..i];
        if LoopSkips(calls, run, cap) {
          SkippedCallsChangeNothing(calls, run, cap, envs[i]);
          skipped := skipped + 1;
        } else {
          var stop := CallModel(run, Some(cap), envs[i]);
        }
      }
      assert envs[..|envs|] == envs;
      if OneOvershoot(Costs(old(calls), run), cap) { AtMostOneOvershoot(old(calls), run, cap, envs); }
    }
  }
}
