/** What one reconcile learns about a claim's SLO (internal/controller/slo_status.go), and the deploy
    freeze it decides from that (internal/controller/freeze.go). */
module SloStatus {
  import opened Budget
  import opened Conditions
  import opened Outcomes
  import opened Spending

  // Reasons the two conditions carry.
  const WITHIN_BUDGET := "WithinBudget"
  const BUDGET_EXHAUSTED := "BudgetExhausted"
  const BUDGET_RECOVERING := "BudgetRecovering"
  const BUDGET_UNKNOWN := "BudgetUnknown"
  const FAST_BURN := "FastBurn"
  const NO_TRAFFIC := "NoTraffic"
  const PROMETHEUS_UNAVAILABLE := "PrometheusUnavailable"
  const UNUSABLE_DATA := "UnusableData"
  const INVALID_SPEC := "InvalidSpec"

  /** The fastest page alert's burn rate, and the share of budget that unfreezes deploys. */
  const FAST_BURN_RATE := 14.4
  const UNFREEZE_BUDGET := 0.05

  /** What Prometheus answers to one query. */
  datatype Answer = Sample(value: Float) | NoData | QueryFailed

  /** The answers to the SLO-window query and to the one-hour query. */
  datatype Prometheus = Prometheus(window: Answer, hour: Answer)

  /** What an evaluation depends on: the client, if any, the claim's objective, whether its SLI makes
      a query, and float rounding. */
  datatype SloInputs = SloInputs(prometheus: Option<Prometheus>, objective: string, queryBuilds: bool,
      rnd: real -> real)

  datatype SloReport = SloReport(
    status: Status, reason: string,
    measured: bool, remaining: Float,
    budgetShown: bool, burnRateShown: bool)

  const UNMEASURED := SloReport(Unknown, "", false, Finite(0.0), false, false)

  function BudgetOf(objective: string): (b: Option<Rat>)
    ensures b.Some? <==> ErrorBudget(objective).Ok?
    ensures b.Some? ==> b.value == ErrorBudget(objective).value && b.value.den > 0 && b.value.num > 0
  {
    ErrorBudgetExact(objective);
    if ErrorBudget(objective).Ok? then Some(ErrorBudget(objective).value) else None
  }

  function Fails(status: Status, reason: string): SloReport {
    UNMEASURED.(status := status, reason := reason)
  }

  /** The report a reconcile makes of these inputs. */
  function Evaluate(i: SloInputs): SloReport {
    if i.prometheus.None? then Fails(Unknown, PROMETHEUS_UNAVAILABLE)
    else if BudgetOf(i.objective).None? || !i.queryBuilds then Fails(Unknown, INVALID_SPEC)
    else
      var p, budget := i.prometheus.value, BudgetOf(i.objective);
      if p.window.QueryFailed? || p.hour.QueryFailed? then Fails(Unknown, PROMETHEUS_UNAVAILABLE)
      else if p.window.NoData? then Fails(Unknown, NO_TRAFFIC)
      else match SpendBudget(p.window.value, budget, i.rnd)
        case Err(_) => Fails(Unknown, UNUSABLE_DATA)
        case Ok(use) =>
          var spent := UNMEASURED.(measured := true, remaining := use.remaining, budgetShown := true);
          if p.hour.Sample? && BurnRate(p.hour.value, budget, i.rnd).Err? then
            spent.(reason := UNUSABLE_DATA)
          else
            var r := spent.(burnRateShown := p.hour.Sample?);
            if AtMost(use.remaining, 0.0) then r.(status := False, reason := BUDGET_EXHAUSTED)
            else if p.hour.Sample? && BurnsFast(BurnRate(p.hour.value, budget, i.rnd).value, i.rnd) then
              r.(status := False, reason := FAST_BURN)
            else r.(status := True, reason := WITHIN_BUDGET)
  }

  /** A burn rate at or above the fastest page alert's. An infinite one, from a budget that rounds to
      zero, is above it. */
  predicate BurnsFast(rate: Float, rnd: real -> real) {
    rate.Infinite? || (rate.Finite? && rate.value >= rnd(FAST_BURN_RATE))
  }

  /** evaluateSLO: fills a report step by step, stopping at the first thing that can't be read. */
  method EvaluateSLO(i: SloInputs) returns (report: SloReport)
    ensures report == Evaluate(i)
  {
    report := UNMEASURED;
    if i.prometheus.None? {
      report := report.(status := Unknown, reason := PROMETHEUS_UNAVAILABLE);
      return;
    }
    var budget := BudgetOf(i.objective);
    if budget.None? || !i.queryBuilds {
      report := report.(status := Unknown, reason := INVALID_SPEC);
      return;
    }
    var window, hour := i.prometheus.value.window, i.prometheus.value.hour;
    if window.QueryFailed? {
      report := report.(status := Unknown, reason := PROMETHEUS_UNAVAILABLE);
      return;
    }
    if hour.QueryFailed? {
      report := report.(status := Unknown, reason := PROMETHEUS_UNAVAILABLE);
      return;
    }
    if window.NoData? {
      report := report.(status := Unknown, reason := NO_TRAFFIC);
      return;
    }
    var use := SpendBudget(window.value, budget, i.rnd);
    if use.Err? {
      report := report.(status := Unknown, reason := UNUSABLE_DATA);
      return;
    }
    report := report.(measured := true, remaining := use.value.remaining, budgetShown := true);
    var fast := false;
    if hour.Sample? {
      var burnRate := BurnRate(hour.value, budget, i.rnd);
      if burnRate.Err? {
        report := report.(status := Unknown, reason := UNUSABLE_DATA);
        return;
      }
      report := report.(burnRateShown := true);
      fast := BurnsFast(burnRate.value, i.rnd);
    }
    if AtMost(report.remaining, 0.0) {
      report := report.(status := False, reason := BUDGET_EXHAUSTED);
    } else if fast {
      report := report.(status := False, reason := FAST_BURN);
    } else {
      report := report.(status := True, reason := WITHIN_BUDGET);
    }
  }

  /** The evaluation fails open: only a finite error ratio, read without a failed query for a valid
      spec, is a measurement; anything else is Unknown with nothing shown; and only a measurement can
      make the SLO unhealthy. */
  lemma FailsOpen(i: SloInputs)
    ensures var r := Evaluate(i);
            && (r.measured <==>
                  && i.prometheus.Some? && ErrorBudget(i.objective).Ok? && i.queryBuilds
                  && i.prometheus.value.window.Sample? && i.prometheus.value.window.value.Finite?
                  && !i.prometheus.value.hour.QueryFailed?)
            && (!r.measured ==> r.status == Unknown && !r.budgetShown && !r.burnRateShown)
            && (r.measured ==> r.budgetShown)
            && (r.status == False ==> r.measured)
            && (r.status == True ==> r.measured && !AtMost(r.remaining, 0.0))
            && (r.burnRateShown <==>
                  r.measured && i.prometheus.value.hour.Sample? && i.prometheus.value.hour.value.Finite?)
  {
    ErrorBudgetExact(i.objective);
  }

  lemma ReasonsDiffer()
    ensures PROMETHEUS_UNAVAILABLE !in
              {INVALID_SPEC, NO_TRAFFIC, UNUSABLE_DATA, BUDGET_EXHAUSTED, FAST_BURN, WITHIN_BUDGET}
    ensures INVALID_SPEC !in {NO_TRAFFIC, UNUSABLE_DATA, BUDGET_EXHAUSTED, FAST_BURN, WITHIN_BUDGET}
    ensures NO_TRAFFIC !in {UNUSABLE_DATA, BUDGET_EXHAUSTED, FAST_BURN, WITHIN_BUDGET}
    ensures UNUSABLE_DATA !in {BUDGET_EXHAUSTED, FAST_BURN, WITHIN_BUDGET}
    ensures BUDGET_UNKNOWN !in {BUDGET_EXHAUSTED, BUDGET_RECOVERING, WITHIN_BUDGET}
    ensures BUDGET_EXHAUSTED !in {BUDGET_RECOVERING, WITHIN_BUDGET} && BUDGET_RECOVERING != WITHIN_BUDGET
  {
    assert |PROMETHEUS_UNAVAILABLE| == 21 && |INVALID_SPEC| == 11 && |NO_TRAFFIC| == 9 && |UNUSABLE_DATA| == 12;
    assert |BUDGET_EXHAUSTED| == 15 && |FAST_BURN| == 8 && |WITHIN_BUDGET| == 12 && |BUDGET_UNKNOWN| == 13;
    assert |BUDGET_RECOVERING| == 16 && UNUSABLE_DATA[0] == 'U' && WITHIN_BUDGET[0] == 'W';
  }

  /** Why a report says nothing about health: no client or a query that failed, a spec that makes no query,
      no requests in the SLO window, or a ratio that is no number, in this order of precedence. */
  lemma UnknownReasons(i: SloInputs)
    ensures var r := Evaluate(i);
            var valid := ErrorBudget(i.objective).Ok? && i.queryBuilds;
            var answered := i.prometheus.Some? && valid && !i.prometheus.value.window.QueryFailed?
                && !i.prometheus.value.hour.QueryFailed?;
            && (r.reason == INVALID_SPEC <==> i.prometheus.Some? && !valid)
            && (r.reason == PROMETHEUS_UNAVAILABLE <==> i.prometheus.None? || (valid && !answered))
            && (r.reason == NO_TRAFFIC <==> answered && i.prometheus.value.window.NoData?)
            && (r.reason == UNUSABLE_DATA <==>
                  && answered && i.prometheus.value.window.Sample?
                  && (i.prometheus.value.window.value.Finite? ==>
                        i.prometheus.value.hour.Sample? && !i.prometheus.value.hour.value.Finite?))
            && (r.status == Unknown <==>
                  r.reason in {INVALID_SPEC, PROMETHEUS_UNAVAILABLE, NO_TRAFFIC, UNUSABLE_DATA})
  {
    ErrorBudgetExact(i.objective);
    ReasonsDiffer();
    hide ErrorBudget, AtMost, BurnsFast, Divide, Remaining, Value, Max;
  }

  /** Health in exact arithmetic. A measured SLO is unhealthy exactly when its budget is gone, or its last
      hour has errors at 14.4 times the budget or more; an hour whose ratio is no number leaves it
      unknown; and otherwise it is healthy, also when the hour saw no requests. */
  lemma HealthExactly(objective: string, window: real, hour: Answer)
    requires ErrorBudget(objective).Ok? && !hour.QueryFailed?
    ensures var b := ErrorBudget(objective).value;
            var r := Evaluate(SloInputs(Some(Prometheus(Sample(Finite(window)), hour)), objective, true, Exactly));
            && b.den > 0
            && var unusable := hour.Sample? && !hour.value.Finite?;
               var gone := Max(window, 0.0) >= Value(b);
               var fast := hour.Sample? && hour.value.Finite? && Max(hour.value.value, 0.0) >= 14.4 * Value(b);
               && (r.status == Unknown <==> unusable)
               && (r.status == False <==> !unusable && (gone || fast))
               && (r.status == True <==> !unusable && !gone && !fast)
               && r.reason == (if unusable then UNUSABLE_DATA else if gone then BUDGET_EXHAUSTED
                   else if fast then FAST_BURN else WITHIN_BUDGET)
  {
    MeasuredExactly(objective, window, hour);
    var b := ErrorBudget(objective).value;
    ValuePositive(b);
    if hour.Sample? && hour.value.Finite? {
      QuotientBound(Max(hour.value.value, 0.0), Value(b), 14.4);
    }
    hide ErrorBudget, Remaining, Value, Max;
  }

  /** The report on two finite ratios. */
  function OnRatios(objective: string, window: real, hour: real, rnd: real -> real): SloReport {
    Evaluate(SloInputs(Some(Prometheus(Sample(Finite(window)), Sample(Finite(hour)))), objective, true, rnd))
  }

  lemma OnRatiosShape(objective: string, window: real, hour: real, b: Rat, rnd: real -> real)
    requires ErrorBudget(objective) == Ok(b) && b.den > 0 && rnd(Value(b)) > 0.0
    ensures var r := OnRatios(objective, window, hour, rnd);
            && SpendBudget(Finite(window), Some(b), rnd).Ok?
            && r.measured && r.remaining == SpendBudget(Finite(window), Some(b), rnd).value.remaining
            && r.status == (if AtMost(r.remaining, 0.0) || rnd(Max(hour, 0.0) / rnd(Value(b))) >= rnd(FAST_BURN_RATE)
                then False else True)
  {
    ErrorBudgetExact(objective);
    hide ErrorBudget, Value, Max, Remaining, AtMost;
  }

  lemma FastOrder(hour: real, faster: real, d: real, rnd: real -> real)
    requires Rounding(rnd) && d > 0.0 && hour <= faster
    ensures rnd(Max(hour, 0.0) / d) <= rnd(Max(faster, 0.0) / d)
    ensures hour >= 14.4 * d ==> rnd(Max(hour, 0.0) / d) >= rnd(FAST_BURN_RATE)
    ensures hour <= 0.0 ==> rnd(Max(hour, 0.0) / d) < rnd(FAST_BURN_RATE)
  {
    QuotientOrder(Max(hour, 0.0), Max(faster, 0.0), d);
    QuotientBound(Max(hour, 0.0), d, 14.4);
    assert rnd(1.0) <= rnd(FAST_BURN_RATE);
  }

  /** Health under any monotone rounding that keeps the budget positive: worse ratios never make an
      unhealthy SLO healthy, an hour at 14.4 times the rounded budget or more is always unhealthy, and one
      without errors is not, as long as some budget is left. */
  lemma HealthRounded(objective: string, window: real, wider: real, hour: real, faster: real, b: Rat,
      rnd: real -> real)
    requires ErrorBudget(objective) == Ok(b) && b.den > 0
    requires Rounding(rnd) && rnd(Value(b)) > 0.0 && window <= wider && hour <= faster
    ensures var r, worse := OnRatios(objective, window, hour, rnd), OnRatios(objective, wider, faster, rnd);
            && (r.status == False ==> worse.status == False)
            && (hour >= 14.4 * rnd(Value(b)) ==> r.status == False)
            && (hour <= 0.0 && !AtMost(r.remaining, 0.0) ==> r.status == True)
  {
    ErrorBudgetExact(objective);
    hide ErrorBudget, Value, Max, Remaining, Evaluate, SpendBudget, Rounding, OnRatios;
    OnRatiosShape(objective, window, hour, b, rnd);
    OnRatiosShape(objective, wider, faster, b, rnd);
    RemainingOrdered(window, wider, b, rnd);
    FastOrder(hour, faster, rnd(Value(b)), rnd);
  }

  /** A budget so small that it rounds to zero: any error in the window exhausts it, and any error in the
      hour burns it too fast; without errors nothing is spent. */
  lemma HealthWithoutBudget(objective: string, window: real, hour: real, b: Rat, rnd: real -> real)
    requires ErrorBudget(objective) == Ok(b) && b.den > 0 && rnd(Value(b)) == 0.0
    ensures var r := OnRatios(objective, window, hour, rnd);
            && r.measured
            && (window > 0.0 ==> r.remaining == Finite(0.0) && r.reason == BUDGET_EXHAUSTED)
            && (window <= 0.0 ==> r.remaining == NaN && (r.reason == FAST_BURN <==> hour > 0.0))
            && (r.status == False <==> window > 0.0 || hour > 0.0)
            && (r.status == True <==> window <= 0.0 && hour <= 0.0)
  {
    ErrorBudgetExact(objective);
    ReasonsDiffer();
    hide ErrorBudget, Value;
  }

  // ----- The deploy freeze -----

  predicate Frozen(cs: seq<Condition>) {
    IsTrue(cs, DEPLOYS_FROZEN)
  }

  /** freezeCondition: freezes when no budget is left, unfreezes only once 5% is back, and keeps its
      last decision while the budget can't be measured. */
  function FreezeCondition(generation: int, stored: seq<Condition>, report: SloReport): (c: Condition)
    ensures c.kind == DEPLOYS_FROZEN && c.status in {True, False} && c.observedGeneration == generation
  {
    var wasFrozen := Frozen(stored);
    if !report.measured && wasFrozen then Condition(DEPLOYS_FROZEN, True, BUDGET_UNKNOWN, generation)
    else if !report.measured then Condition(DEPLOYS_FROZEN, False, BUDGET_UNKNOWN, generation)
    else if AtMost(report.remaining, 0.0) then Condition(DEPLOYS_FROZEN, True, BUDGET_EXHAUSTED, generation)
    else if wasFrozen && Below(report.remaining, UNFREEZE_BUDGET) then
      Condition(DEPLOYS_FROZEN, True, BUDGET_RECOVERING, generation)
    else Condition(DEPLOYS_FROZEN, False, WITHIN_BUDGET, generation)
  }

  /** A measured report that freezes whatever came before it. */
  predicate Exhausted(r: SloReport) {
    r.measured && AtMost(r.remaining, 0.0)
  }

  /** A measured report that unfreezes whatever came before it. */
  predicate Recovered(r: SloReport) {
    r.measured && !AtMost(r.remaining, 0.0) && !Below(r.remaining, UNFREEZE_BUDGET)
  }

  predicate Decisive(r: SloReport) {
    Exhausted(r) || Recovered(r)
  }

  /** The stored conditions after a run of reports, each written at some generation. */
  function Stored(cs: seq<Condition>, run: seq<(int, SloReport)>): seq<Condition>
  {
    if run == [] then cs
    else
      var before := Stored(cs, run[..|run| - 1]);
      Upsert(before, FreezeCondition(run[|run| - 1].0, before, run[|run| - 1].1))
  }

  /** The whole measurement history, read at once: some report found the budget exhausted, and every
      later one left that standing. */
  ghost predicate FrozenByHistory(run: seq<(int, SloReport)>) {
    exists i :: 0 <= i < |run| && Exhausted(run[i].1) && forall j :: i < j < |run| ==> !Recovered(run[j].1)
  }

  ghost predicate NeverRecovered(run: seq<(int, SloReport)>) {
    forall j :: 0 <= j < |run| ==> !Recovered(run[j].1)
  }

  lemma HistoryStep(run: seq<(int, SloReport)>)
    requires run != []
    ensures var init, last := run[..|run| - 1], run[|run| - 1].1;
            && (FrozenByHistory(run) <==> Exhausted(last) || (FrozenByHistory(init) && !Recovered(last)))
            && (NeverRecovered(run) <==> NeverRecovered(init) && !Recovered(last))
  {}

  lemma StoredStep(before: seq<Condition>, generation: int, report: SloReport)
    ensures Frozen(Upsert(before, FreezeCondition(generation, before, report))) <==>
              Exhausted(report) || (Frozen(before) && !Recovered(report))
  {
    FindUpsert(before, FreezeCondition(generation, before, report), DEPLOYS_FROZEN);
  }

  /** What a freeze condition's reason says: that nothing could be measured, that no budget is left, that a
      freeze waits for 5% to be back, or that deploys are free. */
  lemma FreezeReasons(generation: int, stored: seq<Condition>, report: SloReport)
    ensures var c := FreezeCondition(generation, stored, report);
            && (c.reason == BUDGET_UNKNOWN <==> !report.measured)
            && (c.reason == BUDGET_EXHAUSTED <==> Exhausted(report))
            && (c.reason == BUDGET_RECOVERING <==>
                  report.measured && !Exhausted(report) && !Recovered(report) && Frozen(stored))
            && (c.reason == WITHIN_BUDGET <==> report.measured && c.status == False)
  {
    ReasonsDiffer();
    hide Frozen, AtMost, Below;
  }

  /** The one stored bit is a function of the whole history: after any run, deploys are frozen exactly
      when the latest decisive report had no budget left, or none was decisive and they were frozen. */
  lemma {:induction false} FreezeIsHistory(cs: seq<Condition>, run: seq<(int, SloReport)>)
    ensures Frozen(Stored(cs, run)) <==> FrozenByHistory(run) || (Frozen(cs) && NeverRecovered(run))
  {
    if run != [] {
      var n := |run| - 1;
      FreezeIsHistory(cs, run[..n]);
      StoredStep(Stored(cs, run[..n]), run[n].0, run[n].1);
      HistoryStep(run);
    }
  }

  function OnlyDecisive(run: seq<(int, SloReport)>): seq<(int, SloReport)> {
    if run == [] then []
    else OnlyDecisive(run[..|run| - 1]) + if Decisive(run[|run| - 1].1) then [run[|run| - 1]] else []
  }

  /** Reports that could not be measured, and those inside the hysteresis band, leave no trace: a run
      ends frozen exactly when the run without them does. */
  lemma {:induction false} IndecisiveReportsVanish(cs: seq<Condition>, run: seq<(int, SloReport)>)
    ensures Frozen(Stored(cs, run)) <==> Frozen(Stored(cs, OnlyDecisive(run)))
  {
    if run != [] {
      var init, last := run[..|run| - 1], run[|run| - 1];
      IndecisiveReportsVanish(cs, init);
      StoredStep(Stored(cs, init), last.0, last.1);
      if Decisive(last.1) {
        var kept := OnlyDecisive(run);
        assert kept[..|kept| - 1] == OnlyDecisive(init);
        StoredStep(Stored(cs, OnlyDecisive(init)), last.0, last.1);
      } else {
        assert OnlyDecisive(run) == OnlyDecisive(init);
      }
    }
  }

  /** Runs that agree on what was decisive end alike, whatever else they hold. */
  lemma SameDecisiveSameFreeze(cs: seq<Condition>, a: seq<(int, SloReport)>, b: seq<(int, SloReport)>)
    requires OnlyDecisive(a) == OnlyDecisive(b)
    ensures Frozen(Stored(cs, a)) <==> Frozen(Stored(cs, b))
  {
    IndecisiveReportsVanish(cs, a);
    IndecisiveReportsVanish(cs, b);
  }

  lemma {:induction false} OnlyDecisiveConcat(a: seq<(int, SloReport)>, b: seq<(int, SloReport)>)
    ensures OnlyDecisive(a + b) == OnlyDecisive(a) + OnlyDecisive(b)
  {
    if b == [] {
      assert a + b == a;
    } else {
      OnlyDecisiveConcat(a, b[..|b| - 1]);
      assert (a + b)[..|a + b| - 1] == a + b[..|b| - 1];
    }
  }

  /** Any subset of the reports that decided nothing may be deleted: dropping one, anywhere in a run, and so
      any number one after the other, keeps what the run ends with. Unmeasured reports are of these, and
      with them the reports of invalid specs. */
  lemma DropIndecisive(cs: seq<Condition>, before: seq<(int, SloReport)>, report: (int, SloReport),
      later: seq<(int, SloReport)>)
    requires !Decisive(report.1)
    ensures OnlyDecisive(before + [report] + later) == OnlyDecisive(before + later)
    ensures Frozen(Stored(cs, before + [report] + later)) <==> Frozen(Stored(cs, before + later))
  {
    OnlyDecisiveConcat(before + [report], later);
    OnlyDecisiveConcat(before, [report]);
    OnlyDecisiveConcat(before, later);
    assert [report][..0] == [] && OnlyDecisive([report]) == [];
    SameDecisiveSameFreeze(cs, before + [report] + later, before + later);
  }

  lemma MeasuredExactly(objective: string, ratio: real, hour: Answer)
    requires ErrorBudget(objective).Ok? && !hour.QueryFailed?
    ensures var b := ErrorBudget(objective).value;
            var r := Evaluate(SloInputs(Some(Prometheus(Sample(Finite(ratio)), hour)), objective, true, Exactly));
            && b.den > 0 && b.num > 0 && r.measured
            && (AtMost(r.remaining, 0.0) <==> Max(ratio, 0.0) >= Value(b))
            && (Below(r.remaining, UNFREEZE_BUDGET) <==> Max(ratio, 0.0) > 0.95 * Value(b))
  {
    ErrorBudgetExact(objective);
    ExactBounds(ratio, ErrorBudget(objective).value);
  }

  /** From the query to the freeze, in exact arithmetic: an unfrozen claim freezes exactly when its
      error ratio reaches the number its 1x alert compares with, and a frozen one unfreezes exactly
      when the ratio is down to 95% of it. */
  lemma FreezeFollowsTheAlert(objective: string, ratio: real, hour: Answer, generation: int, stored: seq<Condition>)
    requires ErrorBudget(objective).Ok? && !hour.QueryFailed?
    ensures var b := ErrorBudget(objective).value;
            && b.den > 0 && PlainDecimal("1") && PlainDecimal(Threshold("1", b))
            && var alert := SetString(Threshold("1", b));
               alert.den > 0 &&
               var report := Evaluate(SloInputs(Some(Prometheus(Sample(Finite(ratio)), hour)), objective, true,
                   Exactly));
               var frozen := FreezeCondition(generation, stored, report).status == True;
               && (!Frozen(stored) ==> (frozen <==> Max(ratio, 0.0) >= Value(alert)))
               && (Frozen(stored) ==> (!frozen <==> Max(ratio, 0.0) <= 0.95 * Value(alert)))
  {
    MeasuredExactly(objective, ratio, hour);
    OneTimesThreshold(objective);
    ValuePositive(ErrorBudget(objective).value);
  }

  /** The freeze decided on Prometheus's answers to the window and hour queries, in exact arithmetic. */
  predicate FreezesOn(window: Answer, hour: Answer, objective: string, generation: int, stored: seq<Condition>) {
    var report := Evaluate(SloInputs(Some(Prometheus(window, hour)), objective, true, Exactly));
    FreezeCondition(generation, stored, report).status == True
  }

  lemma FreezesOnRatio(objective: string, ratio: real, hour: Answer, generation: int, stored: seq<Condition>)
    requires ErrorBudget(objective).Ok? && !hour.QueryFailed? && !Frozen(stored)
    ensures var b := ErrorBudget(objective).value;
            b.den > 0 && (FreezesOn(Sample(Finite(ratio)), hour, objective, generation, stored) <==>
                Max(ratio, 0.0) >= Value(b))
  {
    MeasuredExactly(objective, ratio, hour);
  }

  lemma NoDataNeverFreezes(objective: string, hour: Answer, generation: int, stored: seq<Condition>)
    requires !Frozen(stored)
    ensures !FreezesOn(NoData, hour, objective, generation, stored)
  {}
}
