/** The recording rules and burn-rate alerts generated for a claim (internal/slo/rules.go,
    internal/slo/alerts.go), and when an alert fires. */
module Alerts {
  import opened Budget
  import opened Outcomes
  import opened PromQL
  import opened Spending
  import opened Numbers
  import Conditions
  import SloStatus

  const WINDOWS: seq<string> := ["5m", "30m", "1h", "2h", "6h", "1d", "3d"]

  datatype BurnRateAlert = BurnRateAlert(severity: string, burnRate: string, longWindow: string, shortWindow: string)

  const BURN_RATE_ALERTS: seq<BurnRateAlert> := [
    BurnRateAlert("page", "14.4", "1h", "5m"),
    BurnRateAlert("page", "6", "6h", "30m"),
    BurnRateAlert("ticket", "3", "1d", "2h"),
    BurnRateAlert("ticket", "1", "3d", "6h")
  ]

  function Underscored(s: string): string {
    seq(|s|, i requires 0 <= i < |s| => if s[i] == '-' then '_' else s[i])
  }

  function RecordName(sliType: string, window: string): string {
    "sli:" + Underscored(sliType) + ":error_ratio_rate" + window
  }

  /** The claim, as rules name it. */
  datatype Service = Service(name: string, owner: string, tier: string)

  type Tags = map<string, string>

  const LABEL_SERVICE := "service"
  const LABEL_OWNER := "owner"
  const LABEL_TIER := "tier"
  const LABEL_SEVERITY := "severity"
  const LABEL_LONG_WINDOW := "long_window"
  const LABEL_SHORT_WINDOW := "short_window"

  function RuleLabels(service: Service): Tags {
    map[LABEL_SERVICE := service.name, LABEL_OWNER := service.owner, LABEL_TIER := service.tier]
  }

  datatype RecordingRule = RecordingRule(record: string, expr: Expr, labels: Tags)

  /** One alert: both recorded ratios of the service are above the threshold. */
  datatype AlertRule = AlertRule(longRecord: string, shortRecord: string, service: string, threshold: string,
      labels: Tags)

  lemma RecordNamesDiffer(sliType: string, v: string, w: string)
    requires RecordName(sliType, v) == RecordName(sliType, w)
    ensures v == w
  {
    var prefix := "sli:" + Underscored(sliType) + ":error_ratio_rate";
    assert v == RecordName(sliType, v)[|prefix|..];
    assert w == RecordName(sliType, w)[|prefix|..];
  }

  predicate Alphanumeric(c: char) {
    'a' <= c <= 'z' || 'A' <= c <= 'Z' || '0' <= c <= '9'
  }

  /** Prometheus's grammar of metric names. */
  predicate MetricName(s: string) {
    && s != "" && !IsDigit(s[0])
    && forall c :: c in s ==> Alphanumeric(c) || c == '_' || c == ':'
  }

  /** A record is a metric name for every SLI type of letters, digits and dashes. It keeps the type, with the
      dashes as underscores, and so is different for types that differ in more than that. */
  lemma RecordNameValid(sliType: string, window: string)
    requires forall c :: c in sliType ==> Alphanumeric(c) || c == '-'
    requires forall c :: c in window ==> Alphanumeric(c)
    ensures MetricName(RecordName(sliType, window))
    ensures var name := RecordName(sliType, window);
            && |name| > |sliType| + 4 && window == name[|name| - |window|..]
            && forall i :: 0 <= i < |sliType| ==> name[4 + i] == if sliType[i] == '-' then '_' else sliType[i]
  {
    var kind, end := Underscored(sliType), ":error_ratio_rate";
    assert RecordName(sliType, window) == "sli:" + kind + end + window;
    forall c | c in RecordName(sliType, window) ensures Alphanumeric(c) || c == '_' || c == ':' {
      assert c in "sli:" || c in kind || c in end || c in window;
    }
  }

  /** RecordingRules: one rule per window, each recording the claim's error ratio over that window
      under a name of its own, or none when the SLI makes no query. */
  method RecordingRules(sli: Sli, sliType: string, service: Service,
      namespace: string) returns (rules: Option<seq<RecordingRule>>)
    ensures rules.Some? <==> ErrorRatioExpr(sli, namespace, "5m").Some?
    ensures rules.Some? ==>
              && |rules.value| == |WINDOWS|
              && (forall i :: 0 <= i < |WINDOWS| ==>
                    && rules.value[i].record == RecordName(sliType, WINDOWS[i])
                        && rules.value[i].labels == RuleLabels(service)
                    && Some(rules.value[i].expr) == ErrorRatioExpr(sli, namespace, WINDOWS[i]))
              && (forall i, j :: 0 <= i < j < |WINDOWS| ==> rules.value[i].record != rules.value[j].record)
  {
    var made: seq<RecordingRule> := [];
    for i := 0 to |WINDOWS|
      invariant |made| == i
      invariant i > 0 ==> ErrorRatioExpr(sli, namespace, "5m").Some?
      invariant forall j :: 0 <= j < i ==>
                  && made[j].record == RecordName(sliType, WINDOWS[j]) && made[j].labels == RuleLabels(service)
                  && Some(made[j].expr) == ErrorRatioExpr(sli, namespace, WINDOWS[j])
    {
      var expr := ErrorRatioExpr(sli, namespace, WINDOWS[i]);
      if expr.None? {
        return None;
      }
      made := made + [RecordingRule(RecordName(sliType, WINDOWS[i]), expr.value, RuleLabels(service))];
    }
    forall i, j | 0 <= i < j < |WINDOWS| ensures made[i].record != made[j].record {
      if made[i].record == made[j].record {
        RecordNamesDiffer(sliType, WINDOWS[i], WINDOWS[j]);
      }
    }
    return Some(made);
  }

  /** The table's burn rates are plain decimals, its alerts read only recorded windows, and no two rows
      share a long window. */
  lemma TableWellFormed()
    ensures forall row :: row in BURN_RATE_ALERTS ==>
              PlainDecimal(row.burnRate) && row.longWindow in WINDOWS && row.shortWindow in WINDOWS
    ensures forall i, j :: 0 <= i < j < |BURN_RATE_ALERTS| ==>
              BURN_RATE_ALERTS[i].longWindow != BURN_RATE_ALERTS[j].longWindow
  {
    TableDecimals();
    TableRecorded();
    hide PlainDecimal;
  }

  lemma TableDecimals()
    ensures PlainDecimal("14.4") && PlainDecimal("6") && PlainDecimal("3") && PlainDecimal("1")
  {
    assert "14" + "." + "4" == "14.4";
    hide PlainDecimal, IntegerPart, FractionPart;
    DecimalParts("14", "4");
    DecimalParts("6", "");
    DecimalParts("3", "");
    DecimalParts("1", "");
  }

  lemma TableRecorded()
    ensures "5m" in WINDOWS && "30m" in WINDOWS && "1h" in WINDOWS && "2h" in WINDOWS
    ensures "6h" in WINDOWS && "1d" in WINDOWS && "3d" in WINDOWS
  {
    assert WINDOWS[0] == "5m" && WINDOWS[1] == "30m" && WINDOWS[2] == "1h" && WINDOWS[3] == "2h";
    assert WINDOWS[4] == "6h" && WINDOWS[5] == "1d" && WINDOWS[6] == "3d";
  }

  // ----- The SLO window -----

  const MAX_INT := 0x7FFF_FFFF_FFFF_FFFF

  /** strconv.Atoi: digits with an optional sign, within 64 bits. */
  function Atoi(s: string): Option<int> {
    var digits := if s != "" && s[0] in {'+', '-'} then s[1..] else s;
    if digits == "" || !AllDigits(digits) then None
    else
      var size: int := DigitsValue(digits);
      var n := if s[0] == '-' then -size else size;
      if -MAX_INT - 1 <= n <= MAX_INT then Some(n) else None
  }

  predicate HasSuffix(s: string, c: char) {
    s != "" && s[|s| - 1] == c
  }

  function TrimSuffix(s: string, c: char): string {
    if HasSuffix(s, c) then s[..|s| - 1] else s
  }

  /** The days of an SLO window. */
  function SloWindow(window: string): Option<int> {
    var days := Atoi(TrimSuffix(window, 'd'));
    if days.None? || !HasSuffix(window, 'd') || days.value <= 0 then None else days
  }

  /** Digits, with or without a plus sign, and a d. */
  ghost predicate DaysText(window: string, digits: string) {
    && digits != "" && AllDigits(digits)
    && (window == digits + "d" || window == "+" + digits + "d")
  }

  /** A window is accepted exactly when it is a positive number of days that fits 64 bits, in digits with or
      without a plus sign, and a d; and then it is that number. */
  lemma SloWindowExact(window: string)
    ensures SloWindow(window).Some? <==>
              exists digits :: DaysText(window, digits) && 0 < DigitsValue(digits) <= MAX_INT
    ensures forall digits :: DaysText(window, digits) && SloWindow(window).Some? ==>
        SloWindow(window).value == DigitsValue(digits)
  {
    forall digits | DaysText(window, digits)
      ensures SloWindow(window) == if 0 < DigitsValue(digits) <= MAX_INT then Some(DigitsValue(digits)) else None
    {
      DaysRead(window, digits);
    }
    if SloWindow(window).Some? {
      var text := TrimSuffix(window, 'd');
      var digits := if text[0] == '+' then text[1..] else text;
      assert window == text + "d";
      assert text[0] == '+' ==> text == "+" + digits;
      assert DaysText(window, digits);
    }
  }

  lemma DaysRead(window: string, digits: string)
    requires DaysText(window, digits)
    ensures SloWindow(window) == if 0 < DigitsValue(digits) <= MAX_INT then Some(DigitsValue(digits)) else None
  {
    var text := TrimSuffix(window, 'd');
    assert text == digits || text == "+" + digits;
    assert IsDigit(digits[0]);
    assert text != digits ==> text[1..] == digits;
    hide DigitsValue;
  }

  function AlertLabels(row: BurnRateAlert, service: Service): Tags {
    RuleLabels(service)[LABEL_SEVERITY := row.severity]
      [LABEL_LONG_WINDOW := row.longWindow][LABEL_SHORT_WINDOW := row.shortWindow]
  }

  function AlertOf(row: BurnRateAlert, sliType: string, service: Service, threshold: string): AlertRule {
    AlertRule(RecordName(sliType, row.longWindow), RecordName(sliType, row.shortWindow), service.name, threshold,
              AlertLabels(row, service))
  }

  lemma LabelNamesDiffer()
    ensures LABEL_SERVICE !in {LABEL_OWNER, LABEL_TIER, LABEL_SEVERITY, LABEL_LONG_WINDOW, LABEL_SHORT_WINDOW}
    ensures LABEL_OWNER !in {LABEL_TIER, LABEL_SEVERITY, LABEL_LONG_WINDOW, LABEL_SHORT_WINDOW}
    ensures LABEL_TIER !in {LABEL_SEVERITY, LABEL_LONG_WINDOW, LABEL_SHORT_WINDOW}
    ensures LABEL_SEVERITY !in {LABEL_LONG_WINDOW, LABEL_SHORT_WINDOW} && LABEL_LONG_WINDOW != LABEL_SHORT_WINDOW
  {
    assert |LABEL_SERVICE| == 7 && |LABEL_OWNER| == 5 && |LABEL_TIER| == 4;
    assert |LABEL_SEVERITY| == 8 && |LABEL_LONG_WINDOW| == 11 && |LABEL_SHORT_WINDOW| == 12;
  }

  /** The four alerts share a name; their labels say whose they are and tell them apart. */
  lemma AlertsTellApart(i: nat, j: nat, sliType: string, service: Service, threshold: string, other: string)
    requires i < j < |BURN_RATE_ALERTS|
    ensures var a, b := AlertOf(BURN_RATE_ALERTS[i], sliType, service, threshold),
        AlertOf(BURN_RATE_ALERTS[j], sliType, service, other);
            && a.labels != b.labels
            && LABEL_SERVICE in a.labels && a.labels[LABEL_SERVICE] == service.name
            && LABEL_OWNER in a.labels && a.labels[LABEL_OWNER] == service.owner
            && LABEL_TIER in a.labels && a.labels[LABEL_TIER] == service.tier
            && LABEL_SEVERITY in a.labels && a.labels[LABEL_SEVERITY] == BURN_RATE_ALERTS[i].severity
            && LABEL_LONG_WINDOW in a.labels && a.labels[LABEL_LONG_WINDOW] == BURN_RATE_ALERTS[i].longWindow
            && LABEL_SHORT_WINDOW in a.labels && a.labels[LABEL_SHORT_WINDOW] == BURN_RATE_ALERTS[i].shortWindow
  {
    LabelNamesDiffer();
    TableWellFormed();
    var row, next := BURN_RATE_ALERTS[i], BURN_RATE_ALERTS[j];
    assert row.longWindow != next.longWindow;
    LabelsHold(row, service);
    LabelsHold(next, service);
    hide *;
  }

  lemma LabelsHold(row: BurnRateAlert, service: Service)
    ensures var labels := AlertLabels(row, service);
            && LABEL_SERVICE in labels && labels[LABEL_SERVICE] == service.name
            && LABEL_OWNER in labels && labels[LABEL_OWNER] == service.owner
            && LABEL_TIER in labels && labels[LABEL_TIER] == service.tier
            && LABEL_SEVERITY in labels && labels[LABEL_SEVERITY] == row.severity
            && LABEL_LONG_WINDOW in labels && labels[LABEL_LONG_WINDOW] == row.longWindow
            && LABEL_SHORT_WINDOW in labels && labels[LABEL_SHORT_WINDOW] == row.shortWindow
  {
    LabelNamesDiffer();
  }

  /** AlertRules: one alert per row of the table, with that row's threshold, exactly when the objective
      and the SLO window are valid. */
  method AlertRules(rows: seq<BurnRateAlert>, objective: string, window: string, sliType: string, service: Service)
    returns (rules: Option<seq<AlertRule>>)
    requires forall i :: 0 <= i < |rows| ==> PlainDecimal(rows[i].burnRate)
    ensures rules.Some? <==> ErrorBudget(objective).Ok? && SloWindow(window).Some?
    ensures rules.Some? ==>
              && |rules.value| == |rows| && ErrorBudget(objective).value.den > 0
              && forall i :: 0 <= i < |rows| ==>
                   rules.value[i] == AlertOf(rows[i], sliType, service,
                       Threshold(rows[i].burnRate, ErrorBudget(objective).value))
  {
    hide *;
    var budget := ErrorBudget(objective);
    if budget.Err? || SloWindow(window).None? {
      return None;
    }
    BudgetPositive(objective);
    var made: seq<AlertRule> := [];
    for i := 0 to |rows|
      invariant |made| == i
      invariant forall j :: 0 <= j < i ==>
                  made[j] == AlertOf(rows[j], sliType, service, Threshold(rows[j].burnRate, budget.value))
    {
      var threshold := Threshold(rows[i].burnRate, budget.value);
      var labels := RuleLabels(service);
      labels := labels[LABEL_SEVERITY := rows[i].severity];
      labels := labels[LABEL_LONG_WINDOW := rows[i].longWindow];
      labels := labels[LABEL_SHORT_WINDOW := rows[i].shortWindow];
      var alert := AlertRule(RecordName(sliType, rows[i].longWindow), RecordName(sliType, rows[i].shortWindow),
                             service.name, threshold, labels);
      AlertMade(rows[i], sliType, service, threshold, alert);
      made := made + [alert];
    }
    return Some(made);
  }

  lemma AlertMade(row: BurnRateAlert, sliType: string, service: Service, threshold: string, alert: AlertRule)
    requires alert == AlertRule(RecordName(sliType, row.longWindow), RecordName(sliType, row.shortWindow),
        service.name, threshold,
                                RuleLabels(service)[LABEL_SEVERITY := row.severity][LABEL_LONG_WINDOW := row.longWindow]
                                                   [LABEL_SHORT_WINDOW := row.shortWindow])
    ensures alert == AlertOf(row, sliType, service, threshold)
  {}

  /** Every ratio a generated alert reads is one the recording rules record. */
  lemma AlertsReadRecorded(row: BurnRateAlert, sliType: string, service: Service, threshold: string)
    requires row in BURN_RATE_ALERTS
    ensures var alert := AlertOf(row, sliType, service, threshold);
            && (exists w :: w in WINDOWS && alert.longRecord == RecordName(sliType, w))
            && (exists w :: w in WINDOWS && alert.shortRecord == RecordName(sliType, w))
  {
    TableWellFormed();
    assert row.longWindow in WINDOWS && row.shortWindow in WINDOWS;
  }

  predicate Compares(row: BurnRateAlert, window: string) {
    row.longWindow == window || row.shortWindow == window
  }

  /** And every window that is recorded is one some alert compares. */
  lemma RecordedAreCompared(i: nat) returns (row: BurnRateAlert)
    requires i < |WINDOWS|
    ensures row in BURN_RATE_ALERTS && Compares(row, WINDOWS[i])
  {
    var rows := [0, 1, 0, 2, 1, 2, 3];
    row := BURN_RATE_ALERTS[rows[i]];
  }

  // ----- When an alert fires -----

  /** The recorded error ratios, by record name and service. */
  type Recorded = map<(string, string), real>

  predicate Above(recorded: Recorded, record: string, service: string, bound: real) {
    (record, service) in recorded && recorded[(record, service)] > bound
  }

  /** Prometheus compares the samples with the number the threshold text denotes. */
  predicate Fires(rule: AlertRule, recorded: Recorded)
    requires PlainDecimal(rule.threshold)
  {
    SetStringReduced(rule.threshold);
    var bound := Value(SetString(rule.threshold));
    Above(recorded, rule.longRecord, rule.service, bound) && Above(recorded, rule.shortRecord, rule.service, bound)
  }

  lemma ValueOf(r: Rat, n: int, d: int)
    requires r.den > 0 && d > 0 && Denotes(r, n, d)
    ensures Value(r) == n as real / d as real
  {
    var x, y := r.num as real / r.den as real, n as real / d as real;
    assert r.num as real * d as real == n as real * r.den as real by {
      assert r.num as real * d as real == (r.num * d) as real;
      assert n as real * r.den as real == (n * r.den) as real;
    }
    SameQuotient(r.num as real, r.den as real, n as real, d as real);
  }

  lemma SameQuotient(a: real, b: real, c: real, d: real)
    requires b > 0.0 && d > 0.0 && a * d == c * b
    ensures a / b == c / d
  {
    assert (a / b) * b == a && (c / d) * d == c;
    assert (a / b - c / d) * (b * d) == 0.0;
    ProductSign(b, d);
    ProductSign(a / b - c / d, b * d);
  }

  lemma ValueMul(a: Rat, b: Rat)
    requires a.den > 0 && b.den > 0
    ensures Mul(a, b).den > 0 && Value(Mul(a, b)) == Value(a) * Value(b)
  {
    hide Denotes, Reduced, Value;
    MulPositive(a.den, b.den);
    NormFacts(a.num * b.num, a.den * b.den);
    ValueOf(Mul(a, b), a.num * b.num, a.den * b.den);
    ValueTimes(a, b);
  }

  lemma ValueTimes(a: Rat, b: Rat)
    requires a.den > 0 && b.den > 0 && a.den * b.den > 0
    ensures (a.num * b.num) as real / (a.den * b.den) as real == Value(a) * Value(b)
  {
    RealProduct(a.num, b.num);
    RealProduct(a.den, b.den);
    ProductQuotient(a.num as real, a.den as real, b.num as real, b.den as real);
  }

  lemma RealProduct(m: int, n: int)
    ensures (m * n) as real == m as real * n as real
  {}

  lemma ProductQuotient(x: real, p: real, y: real, q: real)
    requires p > 0.0 && q > 0.0
    ensures p * q > 0.0 && (x * y) / (p * q) == (x / p) * (y / q)
  {
    ProductSign(p, q);
    var u, v := x / p, y / q;
    assert u * p == x && v * q == y;
    assert (u * v) * (p * q) == x * y by {
      assert (u * v) * (p * q) == (u * p) * (v * q);
    }
    SameQuotient(x * y, p * q, u * v, 1.0);
  }

  /** Each alert fires exactly when the service's recorded error ratio over both its windows exceeds
      burnRate x (1 - objective/100), with no rounding anywhere between the claim and the comparison. */
  lemma AlertFiresExactly(objective: string, row: BurnRateAlert, sliType: string, service: Service, recorded: Recorded)
    requires ErrorBudget(objective).Ok? && PlainDecimal(row.burnRate)
    ensures ErrorBudget(objective).value.den > 0
    ensures var threshold := Threshold(row.burnRate, ErrorBudget(objective).value);
            && PlainDecimal(threshold) && SetString(row.burnRate).den > 0
            && (Fires(AlertOf(row, sliType, service, threshold), recorded) <==>
                  var bound := Value(SetString(row.burnRate)) * Value(ErrorBudget(objective).value);
                  && Above(recorded, RecordName(sliType, row.longWindow), service.name, bound)
                  && Above(recorded, RecordName(sliType, row.shortWindow), service.name, bound))
  {
    hide Value, Threshold, ErrorBudget, Mul, SetString, PlainDecimal;
    ThresholdReads(objective, row.burnRate);
    var b := ErrorBudget(objective).value;
    FiresAt(AlertOf(row, sliType, service, Threshold(row.burnRate, b)), recorded, SetString(row.burnRate), b);
  }

  lemma FiresAt(rule: AlertRule, recorded: Recorded, a: Rat, b: Rat)
    requires a.den > 0 && b.den > 0 && PlainDecimal(rule.threshold) && SetString(rule.threshold) == Mul(a, b)
    ensures var bound := Value(a) * Value(b);
            Fires(rule, recorded) <==>
              Above(recorded, rule.longRecord, rule.service, bound)
                  && Above(recorded, rule.shortRecord, rule.service, bound)
  {
    ValueMul(a, b);
  }

  lemma FourteenPointFour(s: string)
    requires PlainDecimal(s) && Numerator(s) == 144 && Pow(10, FractionDigits(s)) == 10
    ensures SetString(s).den > 0 && Value(SetString(s)) == 14.4
  {
    SetStringReduced(s);
    hide SetString, PlainDecimal, Numerator, FractionDigits, Reduced, Value;
    ValueOf(SetString(s), 144, 10);
    assert 144 as real / 10 as real == 14.4;
  }

  /** The burn rate that makes an SLO unhealthy is that of the table's first row. */
  lemma FastBurnIsFirstAlert()
    ensures PlainDecimal(BURN_RATE_ALERTS[0].burnRate) && SetString(BURN_RATE_ALERTS[0].burnRate).den > 0
    ensures Value(SetString(BURN_RATE_ALERTS[0].burnRate)) == SloStatus.FAST_BURN_RATE
  {
    DecimalParts("14", "4");
    var s := BURN_RATE_ALERTS[0].burnRate;
    assert "14" + "." + "4" == s;
    assert Numerator(s) == 144 && Pow(10, FractionDigits(s)) == 10 by {
      assert DigitsValue("14") == 14 && DigitsValue("4") == 4 && Pow(10, 1) == 10;
    }
    hide *;
    FourteenPointFour(s);
  }

  // ----- Health and the table -----

  /** From the hour's errors to health, in exact arithmetic: while budget is left, an SLO is unhealthy
      exactly when the hour's error ratio reaches the number that the text of the first alert's threshold
      denotes, and otherwise healthy, unless the hour's ratio is no number. */
  lemma HealthFollowsTheAlert(objective: string, window: real, hour: SloStatus.Answer)
    requires ErrorBudget(objective).Ok? && !hour.QueryFailed?
    ensures var b := ErrorBudget(objective).value;
            && b.den > 0 && PlainDecimal(BURN_RATE_ALERTS[0].burnRate)
            && var threshold := Threshold(BURN_RATE_ALERTS[0].burnRate, b);
               && PlainDecimal(threshold) && SetString(threshold).den > 0
               && var r := SloStatus.Evaluate(SloStatus.SloInputs(
                      Some(SloStatus.Prometheus(SloStatus.Sample(Finite(window)), hour)), objective, true, Exactly));
                  && r.measured
                  && (!AtMost(r.remaining, 0.0) ==>
                        && (r.status == Conditions.False <==>
                              && hour.Sample? && hour.value.Finite?
                              && Max(hour.value.value, 0.0) >= Value(SetString(threshold)))
                        && (r.status == Conditions.Unknown <==> hour.Sample? && !hour.value.Finite?))
                  && (AtMost(r.remaining, 0.0) ==> r.status != Conditions.True)
  {
    hide ErrorBudget, Value, Max, SetString, PlainDecimal, Threshold, Mul, SloStatus.Evaluate, AtMost;
    var rate := BURN_RATE_ALERTS[0].burnRate;
    FastBurnIsFirstAlert();
    ThresholdReads(objective, rate);
    ValueMul(SetString(rate), ErrorBudget(objective).value);
    SloStatus.MeasuredExactly(objective, window, hour);
    SloStatus.HealthExactly(objective, window, hour);
  }

  function UnitSeconds(unit: char): nat {
    match unit
    case 'm' => 60
    case 'h' => 3600
    case 'd' => 86400
    case _ => 0
  }

  /** How long a window of whole minutes, hours or days is. */
  function Seconds(window: string): nat
    requires window != "" && AllDigits(window[..|window| - 1])
  {
    DigitsValue(window[..|window| - 1]) * UnitSeconds(window[|window| - 1])
  }

  predicate Lasts(window: string, seconds: nat) {
    window != "" && AllDigits(window[..|window| - 1]) && Seconds(window) == seconds
  }

  /** A row as numbers: the burn rate, and what each window lasts. */
  ghost predicate RowReads(row: BurnRateAlert, rate: real, longWindow: nat, shortWindow: nat) {
    && PlainDecimal(row.burnRate) && SetString(row.burnRate).den > 0 && Value(SetString(row.burnRate)) == rate
    && Lasts(row.longWindow, longWindow) && Lasts(row.shortWindow, shortWindow)
  }

  lemma OneDigit(n: nat)
    requires n < 10
    ensures var s := [DigitChar(n)];
            AllDigits(s) && DigitsValue(s) == n && PlainDecimal(s) && SetString(s).den > 0
                && Value(SetString(s)) == n as real
  {
    WholeDecimal(n);
    DigitsValueUtoa(n);
    assert Utoa(n) == [DigitChar(n)];
    hide PlainDecimal, SetString, Numerator, FractionDigits;
  }

  lemma DigitsLast(digits: string, unit: char)
    requires AllDigits(digits)
    ensures Lasts(digits + [unit], DigitsValue(digits) * UnitSeconds(unit))
  {
    assert (digits + [unit])[..|digits + [unit]| - 1] == digits;
  }

  lemma OneDigitLasts(window: string, n: nat, unit: char)
    requires n < 10 && window == [DigitChar(n)] + [unit]
    ensures Lasts(window, n * UnitSeconds(unit))
  {
    OneDigit(n);
    DigitsLast([DigitChar(n)], unit);
    hide Lasts, PlainDecimal, SetString;
  }

  lemma WindowsLast()
    ensures Lasts("5m", 300) && Lasts("30m", 1800) && Lasts("1h", 3600) && Lasts("2h", 7200)
    ensures Lasts("6h", 21600) && Lasts("1d", 86400) && Lasts("3d", 259200)
  {
    assert AllDigits("30") && DigitsValue("3") == 3 && DigitsValue("30") == 30 by { assert "30"[..1] == "3"; }
    assert "30" + ['m'] == "30m";
    hide Lasts, DigitsValue, AllDigits;
    DigitsLast("30", 'm');
    OneDigitLasts("5m", 5, 'm');
    OneDigitLasts("1h", 1, 'h');
    OneDigitLasts("2h", 2, 'h');
    OneDigitLasts("6h", 6, 'h');
    OneDigitLasts("1d", 1, 'd');
    OneDigitLasts("3d", 3, 'd');
  }

  /** The recorded windows are listed shortest first. */
  lemma WindowsAscend(i: nat, j: nat) returns (first: nat, second: nat)
    requires i < j < |WINDOWS|
    ensures Lasts(WINDOWS[i], first) && Lasts(WINDOWS[j], second) && first < second
  {
    hide Lasts;
    WindowsLast();
    var lengths := [300, 1800, 3600, 7200, 21600, 86400, 259200];
    first, second := lengths[i], lengths[j];
  }

  lemma RowsRead()
    ensures RowReads(BURN_RATE_ALERTS[0], 14.4, 3600, 300)
    ensures RowReads(BURN_RATE_ALERTS[1], 6.0, 21600, 1800)
    ensures RowReads(BURN_RATE_ALERTS[2], 3.0, 86400, 7200)
    ensures RowReads(BURN_RATE_ALERTS[3], 1.0, 259200, 21600)
  {
    assert "6" == [DigitChar(6)] && "3" == [DigitChar(3)] && "1" == [DigitChar(1)];
    hide PlainDecimal, SetString, Value, DigitsValue, AllDigits, Seconds, Lasts;
    FastBurnIsFirstAlert();
    OneDigit(6);
    OneDigit(3);
    OneDigit(1);
    WindowsLast();
  }

  const THIRTY_DAYS := 2592000

  /** The share of a 30-day budget that is spent when a row's burn rate lasts for its long window. */
  function ShareSpent(rate: real, longWindow: nat): real {
    rate * longWindow as real / THIRTY_DAYS as real
  }

  /** The table is that of the SRE Workbook. Every short window is a twelfth of its long one; the alerts go
      off at 2%, 5%, 10% and 10% of a 30-day budget spent over the long window; and the most urgent come
      first, with higher rates over shorter windows, pages before tickets. */
  lemma TableFollowsTheWorkbook(i: nat, j: nat) returns (rate: real, nextRate: real, longWindow: nat, next: nat)
    requires i < j < |BURN_RATE_ALERTS|
    ensures RowReads(BURN_RATE_ALERTS[i], rate, longWindow, longWindow / 12) && longWindow % 12 == 0
    ensures RowReads(BURN_RATE_ALERTS[j], nextRate, next, next / 12) && next % 12 == 0
    ensures rate > nextRate && longWindow < next
    ensures ShareSpent(rate, longWindow) == [0.02, 0.05, 0.1, 0.1][i]
    ensures ShareSpent(nextRate, next) == [0.02, 0.05, 0.1, 0.1][j]
    ensures BURN_RATE_ALERTS[i].severity == (if ShareSpent(rate, longWindow) < 0.1 then "page" else "ticket")
    ensures BURN_RATE_ALERTS[j].severity == (if ShareSpent(nextRate, next) < 0.1 then "page" else "ticket")
  {
    hide RowReads;
    RowsRead();
    var rates, windows := [14.4, 6.0, 3.0, 1.0], [3600, 21600, 86400, 259200];
    rate, nextRate, longWindow, next := rates[i], rates[j], windows[i], windows[j];
  }
}
