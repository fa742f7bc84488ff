/** The queries generated for a claim's SLI, and what they measure (internal/slo/rules.go).

    A query is an expression tree over the operators the generated text uses. Its meaning is
    Prometheus's: instant-vector sums, or, division and anchored label matching over the series a
    database holds. */
module PromQL {
  import Budget
  import Conditions
  import opened Numbers
  import opened Outcomes
  import opened SloStatus
  import opened Spending

  // ----- Anchored alternations -----

  function Join(codes: seq<string>): string {
    if codes == [] then "" else if |codes| == 1 then codes[0] else codes[0] + "|" + Join(codes[1..])
  }

  function FirstBar(s: string): (i: nat)
    ensures i <= |s| && (i < |s| ==> s[i] == '|') && forall j :: 0 <= j < i ==> s[j] != '|'
  {
    if s == "" || s[0] == '|' then 0 else 1 + FirstBar(s[1..])
  }

  /** A pattern whose only special character is the bar. */
  predicate LiteralAlternation(pattern: string) {
    forall i :: 0 <= i < |pattern| ==> IsDigit(pattern[i]) || pattern[i] == '-' || pattern[i] == '|'
  }

  /** Whether such a pattern, anchored at both ends, matches a label value: one of its alternatives is
      the value itself. */
  predicate Matches(pattern: string, value: string)
    decreases |pattern|
  {
    var i := FirstBar(pattern);
    pattern[..i] == value || (i < |pattern| && Matches(pattern[i + 1..], value))
  }

  predicate NoBar(s: string) {
    forall i :: 0 <= i < |s| ==> s[i] != '|'
  }

  lemma BarAfter(c: string, rest: string)
    requires NoBar(c)
    ensures FirstBar(c + "|" + rest) == |c| && FirstBar(c) == |c|
    ensures (c + "|" + rest)[..|c|] == c && (c + "|" + rest)[|c| + 1..] == rest
  {
    var s := c + "|" + rest;
    assert s[|c|] == '|';
    assert forall j :: 0 <= j < |c| ==> s[j] == c[j];
    if FirstBar(s) > |c| {
      assert false;
    }
    if FirstBar(s) < |c| {
      assert false;
    }
  }

  lemma {:induction false} JoinMatches(codes: seq<string>, value: string)
    requires codes != [] && forall i :: 0 <= i < |codes| ==> NoBar(codes[i])
    ensures Matches(Join(codes), value) <==> value in codes
  {
    if |codes| == 1 {
      BarAfter(codes[0], "");
      assert codes[0][..|codes[0]|] == codes[0];
    } else {
      JoinMatches(codes[1..], value);
      BarAfter(codes[0], Join(codes[1..]));
    }
  }

  lemma ItoaPlain(n: int)
    ensures NoBar(Itoa(n)) && LiteralAlternation(Itoa(n))
  {}

  function Codes(statuses: seq<int>): (codes: seq<string>)
    ensures |codes| == |statuses| && forall i :: 0 <= i < |codes| ==> codes[i] == Itoa(statuses[i])
  {
    seq(|statuses|, i requires 0 <= i < |statuses| => Itoa(statuses[i]))
  }

  lemma {:induction false} JoinLiteral(codes: seq<string>)
    requires forall i :: 0 <= i < |codes| ==> LiteralAlternation(codes[i])
    ensures LiteralAlternation(Join(codes))
  {
    if |codes| > 1 {
      JoinLiteral(codes[1..]);
    }
  }

  /** goodStatusPattern: an empty list is refused; otherwise a label value matches the pattern exactly
      when it is the decimal text of a listed status. */
  method GoodStatusPattern(statuses: seq<int>) returns (pattern: Option<string>)
    ensures pattern == (if statuses == [] then None else Some(Join(Codes(statuses))))
    ensures pattern.Some? ==>
              && LiteralAlternation(pattern.value)
              && forall value :: Matches(pattern.value, value) <==>
                  exists i :: 0 <= i < |statuses| && value == Itoa(statuses[i])
  {
    if |statuses| == 0 {
      return None;
    }
    var codes := [];
    for i := 0 to |statuses|
      invariant |codes| == i && forall j :: 0 <= j < i ==> codes[j] == Itoa(statuses[j])
    {
      codes := codes + [Itoa(statuses[i])];
    }
    assert codes == Codes(statuses);
    PatternMeaning(statuses);
    return Some(Join(codes));
  }

  lemma PatternMeaning(statuses: seq<int>)
    requires statuses != []
    ensures var pattern := Join(Codes(statuses));
            && LiteralAlternation(pattern)
            && forall value :: Matches(pattern, value) <==>
                exists i :: 0 <= i < |statuses| && value == Itoa(statuses[i])
  {
    var codes := Codes(statuses);
    forall i | 0 <= i < |codes| ensures NoBar(codes[i]) && LiteralAlternation(codes[i]) {
      ItoaPlain(statuses[i]);
    }
    JoinLiteral(codes);
    forall value ensures Matches(Join(codes), value) <==>
        exists i :: 0 <= i < |statuses| && value == Itoa(statuses[i]) {
      JoinMatches(codes, value);
      if value in codes {
        var i :| 0 <= i < |codes| && codes[i] == value;
        assert value == Itoa(statuses[i]);
      }
      if i :| 0 <= i < |statuses| && value == Itoa(statuses[i]) {
        assert codes[i] in codes;
      }
    }
  }

  // ----- Queries -----

  const REQUESTS_METRIC := "http_requests_total"
  const DURATION_METRIC := "http_request_duration_seconds"

  datatype Matcher = Equals(name: string, value: string) | NotMatches(name: string, pattern: string)

  datatype Expr =
    | SumRate(metric: string, matchers: seq<Matcher>, window: string)
    | OrZero(e: Expr)
    | Quotient(numerator: Expr, denominator: Expr)
    | OneMinus(e: Expr)

  /** The two SLI types, with the setting each uses. The latency threshold is kept as the bucket label
      it becomes, absent when it is no positive duration. */
  datatype Sli = Availability(goodStatuses: seq<int>) | Latency(bucket: Option<string>) | Unsupported

  function ErrorRatioExpr(sli: Sli, namespace: string, window: string): Option<Expr> {
    var selector := Equals("namespace", namespace);
    match sli
    case Availability(statuses) =>
      if statuses == [] then None
      else
        var bad := SumRate(REQUESTS_METRIC, [selector, NotMatches("code", Join(Codes(statuses)))], window);
        Some(Quotient(OrZero(bad), SumRate(REQUESTS_METRIC, [selector], window)))
    case Latency(None) => None
    case Latency(Some(le)) =>
      Some(OneMinus(Quotient(
        SumRate(DURATION_METRIC + "_bucket", [selector, Equals("le", le)], window),
        SumRate(DURATION_METRIC + "_count", [selector], window))))
    case Unsupported => None
  }

  // ----- Evaluation -----

  /** A series and its per-second rate over each window that holds enough samples. */
  datatype Series = Series(metric: string, labels: map<string, string>, rates: map<string, real>)

  type Database = seq<Series>

  function Label(s: Series, name: string): string {
    if name in s.labels then s.labels[name] else ""
  }

  predicate Satisfies(s: Series, m: Matcher) {
    match m
    case Equals(name, value) => Label(s, name) == value
    case NotMatches(name, pattern) => !Matches(pattern, Label(s, name))
  }

  predicate Selects(s: Series, metric: string, matchers: seq<Matcher>, window: string) {
    s.metric == metric && window in s.rates && forall i :: 0 <= i < |matchers| ==> Satisfies(s, matchers[i])
  }

  /** The series a selector picks, in database order. */
  function Selected(db: Database, metric: string, matchers: seq<Matcher>, window: string): (r: Database)
    ensures forall s :: s in r <==> s in db && Selects(s, metric, matchers, window)
  {
    if db == [] then []
    else
      var rest := Selected(db[1..], metric, matchers, window);
      assert forall s :: s in db <==> s == db[0] || s in db[1..];
      if Selects(db[0], metric, matchers, window) then [db[0]] + rest else rest
  }

  function Total(db: Database, window: string): real
    requires forall s :: s in db ==> window in s.rates
  {
    if db == [] then 0.0 else db[0].rates[window] + Total(db[1..], window)
  }

  /** An instant vector with at most one sample; None is the empty vector. */
  function Eval(db: Database, e: Expr): Option<Float> {
    match e
    case SumRate(metric, matchers, window) =>
      var picked := Selected(db, metric, matchers, window);
      if picked == [] then None else Some(Finite(Total(picked, window)))
    case OrZero(e1) => if Eval(db, e1).None? then Some(Finite(0.0)) else Eval(db, e1)
    case Quotient(n, d) =>
      var x, y := Eval(db, n), Eval(db, d);
      if x.None? || y.None? then None
      else if x.value.Finite? && y.value.Finite? then Some(Divide(x.value.value, y.value.value, Exactly))
      else Some(NaN)
    case OneMinus(e1) =>
      var x := Eval(db, e1);
      if x.Some? && x.value.Finite? then Some(Finite(1.0 - x.value.value)) else x
  }

  /** QueryValue: an empty result and NaN are both no data. */
  function Query(db: Database, e: Expr): Answer {
    var r := Eval(db, e);
    if r.None? || r.value.NaN? then NoData else Sample(r.value)
  }

  // ----- What the availability query measures -----

  predicate NonNegative(db: Database, window: string) {
    forall s :: s in db && window in s.rates ==> s.rates[window] >= 0.0
  }

  /** A request of the namespace, counted over a window. */
  predicate IsRequest(s: Series, namespace: string, window: string) {
    s.metric == REQUESTS_METRIC && window in s.rates && Label(s, "namespace") == namespace
  }

  predicate HasGoodStatus(s: Series, statuses: seq<int>) {
    exists i :: 0 <= i < |statuses| && Label(s, "code") == Itoa(statuses[i])
  }

  /** The rate of a namespace's requests, of those with a listed status, and of the others. */
  function RequestRate(db: Database, namespace: string, window: string): real {
    if db == [] then 0.0
    else (if IsRequest(db[0], namespace, window) then db[0].rates[window]
        else 0.0) + RequestRate(db[1..], namespace, window)
  }

  function GoodRate(db: Database, namespace: string, window: string, statuses: seq<int>): real {
    if db == [] then 0.0
    else
      (if IsRequest(db[0], namespace, window) && HasGoodStatus(db[0], statuses) then db[0].rates[window] else 0.0)
      + GoodRate(db[1..], namespace, window, statuses)
  }

  function BadRate(db: Database, namespace: string, window: string, statuses: seq<int>): real {
    if db == [] then 0.0
    else
      (if IsRequest(db[0], namespace, window) && !HasGoodStatus(db[0], statuses) then db[0].rates[window] else 0.0)
      + BadRate(db[1..], namespace, window, statuses)
  }

  /** Every request is good or bad, and no rate is negative. */
  lemma {:induction false} RatesSplit(db: Database, namespace: string, window: string, statuses: seq<int>)
    requires NonNegative(db, window)
    ensures BadRate(db, namespace, window, statuses) + GoodRate(db, namespace, window, statuses)
            == RequestRate(db, namespace, window)
    ensures BadRate(db, namespace, window, statuses) >= 0.0 && GoodRate(db, namespace, window, statuses) >= 0.0
  {
    if db != [] {
      assert db[0] in db;
      assert NonNegative(db[1..], window);
      RatesSplit(db[1..], namespace, window, statuses);
    }
  }

  lemma SelectorMeaning(s: Series, namespace: string, window: string, statuses: seq<int>)
    requires statuses != []
    ensures Selects(s, REQUESTS_METRIC, [Equals("namespace", namespace)], window) <==> IsRequest(s, namespace, window)
    ensures Selects(s, REQUESTS_METRIC, [Equals("namespace", namespace), NotMatches("code", Join(Codes(statuses)))],
        window)
            <==> IsRequest(s, namespace, window) && !HasGoodStatus(s, statuses)
  {
    var one, two := [Equals("namespace", namespace)],
        [Equals("namespace", namespace), NotMatches("code", Join(Codes(statuses)))];
    PatternMeaning(statuses);
    assert one[0] == Equals("namespace", namespace);
    assert two[0] == Equals("namespace", namespace) && two[1] == NotMatches("code", Join(Codes(statuses)));
  }

  lemma {:induction false} SumsMeasure(db: Database, namespace: string, window: string, statuses: seq<int>)
    requires statuses != []
    ensures var all := Selected(db, REQUESTS_METRIC, [Equals("namespace", namespace)], window);
            Total(all, window) == RequestRate(db, namespace, window)
    ensures var bad := Selected(db, REQUESTS_METRIC,
        [Equals("namespace", namespace), NotMatches("code", Join(Codes(statuses)))], window);
            Total(bad, window) == BadRate(db, namespace, window, statuses)
  {
    if db != [] {
      SelectorMeaning(db[0], namespace, window, statuses);
      SumsMeasure(db[1..], namespace, window, statuses);
      var m, n := [Equals("namespace", namespace)],
          [Equals("namespace", namespace), NotMatches("code", Join(Codes(statuses)))];
      HeadTotal(db, REQUESTS_METRIC, m, window);
      HeadTotal(db, REQUESTS_METRIC, n, window);
    }
  }

  lemma HeadTotal(db: Database, metric: string, matchers: seq<Matcher>, window: string)
    requires db != []
    ensures Total(Selected(db, metric, matchers, window), window) ==
            (if Selects(db[0], metric, matchers, window) then db[0].rates[window] else 0.0)
            + Total(Selected(db[1..], metric, matchers, window), window)
  {}

  /** The generated availability query measures bad/all: it has no data exactly when the namespace had
      no requests, and otherwise it is the bad share, equal to 1 - good/all, between 0 and 1, and 0
      for a service whose every request had a listed status. */
  lemma AvailabilityMeaning(db: Database, namespace: string, window: string, statuses: seq<int>)
    requires statuses != [] && NonNegative(db, window)
    ensures ErrorRatioExpr(Availability(statuses), namespace, window).Some?
    ensures var all := RequestRate(db, namespace, window);
            var bad, good := BadRate(db, namespace, window, statuses), GoodRate(db, namespace, window, statuses);
            var answer := Query(db, ErrorRatioExpr(Availability(statuses), namespace, window).value);
            && bad + good == all
            && (answer.NoData? <==> all == 0.0)
            && (all != 0.0 ==>
                  && answer == Sample(Finite(bad / all))
                  && bad / all == 1.0 - good / all
                  && 0.0 <= bad / all <= 1.0
                  && (bad == 0.0 ==> bad / all == 0.0))
  {
    RatesSplit(db, namespace, window, statuses);
    AvailabilityValue(db, namespace, window, statuses);
    var all := RequestRate(db, namespace, window);
    var bad, good := BadRate(db, namespace, window, statuses), GoodRate(db, namespace, window, statuses);
    if all != 0.0 {
      ShareOfWhole(bad, good, all);
    }
  }

  /** How the availability query evaluates, step by step. */
  lemma AvailabilityValue(db: Database, namespace: string, window: string, statuses: seq<int>)
    requires statuses != []
    ensures var all, bad := RequestRate(db, namespace, window), BadRate(db, namespace, window, statuses);
            var answer := Query(db, ErrorRatioExpr(Availability(statuses), namespace, window).value);
            answer == NoData || answer == (if all == 0.0 then Sample(Infinite) else Sample(Finite(bad / all)))
    ensures RequestRate(db, namespace, window) != 0.0 || BadRate(db, namespace, window, statuses) == 0.0 ==>
              (Query(db, ErrorRatioExpr(Availability(statuses), namespace, window).value) == NoData
               <==> RequestRate(db, namespace, window) == 0.0)
  {
    SumsMeasure(db, namespace, window, statuses);
    var selector := Equals("namespace", namespace);
    var bad := SumRate(REQUESTS_METRIC, [selector, NotMatches("code", Join(Codes(statuses)))], window);
    var all := SumRate(REQUESTS_METRIC, [selector], window);
    assert ErrorRatioExpr(Availability(statuses), namespace, window) == Some(Quotient(OrZero(bad), all));
    assert Eval(db, OrZero(bad)) == Some(Finite(BadRate(db, namespace, window, statuses)));
    assert Eval(db, all) == None || Eval(db, all) == Some(Finite(RequestRate(db, namespace, window)));
    assert Eval(db, all) == None ==> RequestRate(db, namespace, window) == 0.0;
    hide *;
    QuotientValue(db, OrZero(bad), all);
    QuotientAnswer(db, OrZero(bad), all);
  }

  /** What Query answers to a quotient of two sums. */
  lemma QuotientAnswer(db: Database, n: Expr, d: Expr)
    requires Eval(db, n).Some? && Eval(db, n).value.Finite?
    requires Eval(db, d).Some? ==> Eval(db, d).value.Finite?
    ensures var answer := Query(db, Quotient(n, d));
            if Eval(db, d).None? then answer == NoData
            else
              var x, y := Eval(db, n).value.value, Eval(db, d).value.value;
              answer == if y != 0.0 then Sample(Finite(x / y)) else if x == 0.0 then NoData else Sample(Infinite)
  {
    QuotientValue(db, n, d);
    hide Eval;
  }

  lemma Shares(bad: real, good: real, all: real)
    requires all > 0.0 && bad + good == all
    ensures bad / all + good / all == 1.0
  {}

  lemma ShareOfWhole(bad: real, good: real, all: real)
    requires bad >= 0.0 && good >= 0.0 && bad + good == all && all != 0.0
    ensures bad / all == 1.0 - good / all && 0.0 <= bad / all <= 1.0
  {
    Shares(bad, good, all);
    QuotientOrder(0.0, bad, all);
    QuotientOrder(bad, all, all);
  }

  /** The series the latency query reads: requests within the threshold's bucket, and all requests. */
  function FastSeries(db: Database, namespace: string, window: string, le: string): (r: Database)
    ensures forall s :: s in r ==> s in db && window in s.rates
  {
    Selected(db, DURATION_METRIC + "_bucket", [Equals("namespace", namespace), Equals("le", le)], window)
  }

  function CountSeries(db: Database, namespace: string, window: string): (r: Database)
    ensures forall s :: s in r ==> s in db && window in s.rates
  {
    Selected(db, DURATION_METRIC + "_count", [Equals("namespace", namespace)], window)
  }

  /** The latency query is 1 - fast/all. It has no data exactly when there is no series for exactly the
      threshold's bucket, however many requests there were, or none for the count, or both total zero;
      and it is infinite, which no report uses, exactly when only the count totals zero. */
  lemma LatencyMeaning(db: Database, namespace: string, window: string, le: string)
    ensures ErrorRatioExpr(Latency(Some(le)), namespace, window).Some?
    ensures var fast, all := FastSeries(db, namespace, window, le), CountSeries(db, namespace, window);
            var f, a := Total(fast, window), Total(all, window);
            var answer := Query(db, ErrorRatioExpr(Latency(Some(le)), namespace, window).value);
            && (answer.NoData? <==> fast == [] || all == [] || (f == 0.0 && a == 0.0))
            && (answer == Sample(Infinite) <==> fast != [] && all != [] && a == 0.0 && f != 0.0)
            && (fast != [] && all != [] && a != 0.0 ==> answer == Sample(Finite(1.0 - f / a)))
  {
    hide Selected, Total, Selects;
    var fast := SumRate(DURATION_METRIC + "_bucket", [Equals("namespace", namespace), Equals("le", le)], window);
    var all := SumRate(DURATION_METRIC + "_count", [Equals("namespace", namespace)], window);
    assert ErrorRatioExpr(Latency(Some(le)), namespace, window) == Some(OneMinus(Quotient(fast, all)));
    QuotientValue(db, fast, all);
    ComplementValue(db, Quotient(fast, all));
  }

  lemma QuotientValue(db: Database, n: Expr, d: Expr)
    requires Eval(db, n).Some? ==> Eval(db, n).value.Finite?
    requires Eval(db, d).Some? ==> Eval(db, d).value.Finite?
    ensures Eval(db, Quotient(n, d)) ==
            if Eval(db, n).None? || Eval(db, d).None? then None
            else Some(Divide(Eval(db, n).value.value, Eval(db, d).value.value, Exactly))
  {}

  lemma ComplementValue(db: Database, e: Expr)
    ensures Eval(db, OneMinus(e)) ==
            if Eval(db, e).Some? && Eval(db, e).value.Finite? then Some(Finite(1.0 - Eval(db, e).value.value))
                else Eval(db, e)
  {}

  lemma {:induction false} TotalNonNegative(db: Database, window: string)
    requires forall s :: s in db ==> window in s.rates && s.rates[window] >= 0.0
    ensures Total(db, window) >= 0.0
  {
    if db != [] {
      TotalNonNegative(db[1..], window);
    }
  }

  /** While the bucket counts no more requests than there were, as a histogram's does, the latency query
      has no data or measures a share between 0 and 1. */
  lemma LatencyRange(db: Database, namespace: string, window: string, le: string)
    requires NonNegative(db, window)
    requires Total(FastSeries(db, namespace, window, le), window) <= Total(CountSeries(db, namespace, window), window)
    ensures ErrorRatioExpr(Latency(Some(le)), namespace, window).Some?
    ensures var answer := Query(db, ErrorRatioExpr(Latency(Some(le)), namespace, window).value);
            answer.NoData? || (answer.Sample? && answer.value.Finite? && 0.0 <= answer.value.value <= 1.0)
  {
    hide FastSeries, CountSeries, Query, ErrorRatioExpr, Total;
    LatencyMeaning(db, namespace, window, le);
    TotalNonNegative(FastSeries(db, namespace, window, le), window);
    TotalNonNegative(CountSeries(db, namespace, window), window);
    var f, a := Total(FastSeries(db, namespace, window, le), window), Total(CountSeries(db, namespace, window), window);
    if a != 0.0 {
      ShareOfWhole(f, a - f, a);
    }
  }

  /** From counted requests to the freeze, in exact arithmetic: an unfrozen availability claim freezes
      exactly when the bad requests are at least the budget's share of all of them. */
  lemma FreezeFromRequests(
    db: Database, namespace: string, window: string, statuses: seq<int>,
    objective: string, hour: Answer, generation: int, stored: seq<Conditions.Condition>)
    requires statuses != [] && NonNegative(db, window) && !hour.QueryFailed?
    requires Budget.ErrorBudget(objective).Ok? && !Frozen(stored)
    ensures var query := ErrorRatioExpr(Availability(statuses), namespace, window);
            var budget := Budget.ErrorBudget(objective).value;
            && query.Some? && budget.den > 0
            && (FreezesOn(Query(db, query.value), hour, objective, generation, stored) <==>
                  && RequestRate(db, namespace, window) > 0.0
                  && BadRate(db, namespace, window, statuses) >= Value(budget) * RequestRate(db, namespace, window))
  {
    hide *;
    var answer := AvailabilityAnswer(db, namespace, window, statuses);
    var all, bad := RequestRate(db, namespace, window), BadRate(db, namespace, window, statuses);
    FreezeFromAnswer(answer, objective, bad, all, hour, generation, stored);
  }

  lemma FreezeFromAnswer(
    answer: Answer, objective: string, bad: real, all: real, hour: Answer, generation: int,
        stored: seq<Conditions.Condition>)
    requires bad >= 0.0 && all >= 0.0 && answer == if all == 0.0 then NoData else Sample(Finite(bad / all))
    requires Budget.ErrorBudget(objective).Ok? && !hour.QueryFailed? && !Frozen(stored)
    ensures var budget := Budget.ErrorBudget(objective).value;
            budget.den > 0 &&
            (FreezesOn(answer, hour, objective, generation, stored) <==> all > 0.0 && bad >= Value(budget) * all)
  {
    hide *;
    Budget.BudgetPositive(objective);
    if all > 0.0 {
      FreezeFromShare(objective, bad, all, hour, generation, stored);
    } else {
      NoDataNeverFreezes(objective, hour, generation, stored);
    }
  }

  lemma AvailabilityAnswer(db: Database, namespace: string, window: string, statuses: seq<int>) returns (answer: Answer)
    requires statuses != [] && NonNegative(db, window)
    ensures var query := ErrorRatioExpr(Availability(statuses), namespace, window);
            query.Some? && answer == Query(db, query.value)
    ensures RequestRate(db, namespace, window) >= 0.0 && BadRate(db, namespace, window, statuses) >= 0.0
    ensures if RequestRate(db, namespace, window) == 0.0 then answer == NoData
            else answer == Sample(Finite(BadRate(db, namespace, window, statuses) / RequestRate(db, namespace, window)))
  {
    AvailabilityMeaning(db, namespace, window, statuses);
    RatesSplit(db, namespace, window, statuses);
    answer := Query(db, ErrorRatioExpr(Availability(statuses), namespace, window).value);
  }

  lemma FreezeFromShare(
    objective: string, bad: real, all: real, hour: Answer, generation: int, stored: seq<Conditions.Condition>)
    requires bad >= 0.0 && all > 0.0 && Budget.ErrorBudget(objective).Ok? && !hour.QueryFailed? && !Frozen(stored)
    ensures var budget := Budget.ErrorBudget(objective).value;
            budget.den > 0 &&
            (FreezesOn(Sample(Finite(bad / all)), hour, objective, generation, stored) <==> bad >= Value(budget) * all)
  {
    hide *;
    FreezesOnRatio(objective, bad / all, hour, generation, stored);
    ShareBound(bad, all, Value(Budget.ErrorBudget(objective).value));
  }

  lemma ShareBound(bad: real, all: real, budget: real)
    requires bad >= 0.0 && all > 0.0
    ensures Max(bad / all, 0.0) >= budget <==> bad >= budget * all
  {
    QuotientOrder(0.0, bad, all);
    QuotientBound(bad, all, budget);
  }
}
