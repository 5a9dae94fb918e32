/** The evaluator: its passes, the heartbeat hook and hook delivery, each proved to be a run of lifecycle steps. */
module AlertEngine {
  import opened Text
  import opened Json
  import opened Alerts
  import opened Incidents
  import opened Lifecycle

  const OFFLINE_GRACE := 300
  const NEVER_SEEN := 1000000000000.0

  datatype Asset = Asset(id: nat, name: string, lastSeen: Option<int>)

  datatype Rule = Rule(id: nat, name: string, metric: string, operator: string, threshold: real, severity: Severity,
                       target: Option<nat>)

  /** What the evaluator reads about the assets: when each was last seen (absent: the lookup failed or found no
      row), and each metric's average over the rule's window (absent: an error or no sample); and the alerts whose
      upsert fails. */
  datatype Readings = Readings(lastSeen: map<nat, Option<int>>, averages: map<(nat, nat), real>,
                               failing: set<Fingerprint>)

  function SecondsSince(last: Option<int>, now: int): real {
    match last case None => NEVER_SEEN case Some(t) => (now - t) as real
  }

  function Distance(a: real, b: real): real { if a < b then b - a else a - b }

  predicate Compare(operator: string, value: real, threshold: real) {
    if operator == ">" then value > threshold
    else if operator == "<" then value < threshold
    else if operator == ">=" then value >= threshold
    else if operator == "<=" then value <= threshold
    else if operator == "==" then Distance(value, threshold) <= 0.000001
    else false
  }

  function Sanitized(metric: string, v: real): real {
    if (metric == "cpu_usage" || metric == "ram_usage_percent" || metric == "disk_usage_percent") && v < 0.0 then 0.0
    else v
  }

  predicate IsOfflineRule(r: Rule) { TrimSpace(r.metric) == "offline_status" }

  /** Whether a rule finds a device breaching. */
  predicate Breaches(r: Rule, device: nat, readings: Readings, now: int) {
    if IsOfflineRule(r) then
      device in readings.lastSeen && Compare(TrimSpace(r.operator), SecondsSince(readings.lastSeen[device], now), r.threshold)
    else
      (r.id, device) in readings.averages
      && Compare(TrimSpace(r.operator), Sanitized(TrimSpace(r.metric), readings.averages[(r.id, device)]), r.threshold)
  }

  function BreachOf(r: Rule, device: nat): Breach {
    Breach(if IsOfflineRule(r) then RuleOffline(r.id, device) else RuleMetric(r.id, device), r.severity, r.name, HOUR)
  }

  predicate IsOffline(a: Asset, now: int) {
    a.lastSeen.None? || a.lastSeen.value < now - OFFLINE_GRACE
  }

  function WatchdogBreach(a: Asset): Breach { Breach(BuiltinOffline(a.id), Critical, a.name, HOUR) }

  // ----- the steps of a pass -----

  function WatchdogReports(assets: seq<Asset>, now: int): seq<Action> {
    if assets == [] then []
    else
      var n := |assets| - 1;
      WatchdogReports(assets[..n], now) + if IsOffline(assets[n], now) then [Report(WatchdogBreach(assets[n]))] else []
  }

  function OfflineSet(assets: seq<Asset>, now: int): set<Fingerprint> {
    set a | a in assets && IsOffline(a, now) :: BuiltinOffline(a.id)
  }

  function RuleReports(r: Rule, devices: seq<nat>, readings: Readings, now: int): seq<Action> {
    if devices == [] then []
    else
      var n := |devices| - 1;
      RuleReports(r, devices[..n], readings, now)
      + if Reports(r, devices[n], readings, now) then [Report(BreachOf(r, devices[n]))] else []
  }

  /** A breach is reported unless its upsert fails, which is logged and passed over. */
  predicate Reports(r: Rule, device: nat, readings: Readings, now: int) {
    Breaches(r, device, readings, now) && BreachOf(r, device).fp !in readings.failing
  }

  /** The devices a rule looks at. */
  function DevicesOf(r: Rule, all: seq<nat>): seq<nat> {
    match r.target
    case Some(d) => if d == 0 then all else if d in all then [d] else []
    case None => all
  }

  function RulesReports(rules: seq<Rule>, all: seq<nat>, readings: Readings, now: int): seq<Action> {
    if rules == [] then []
    else
      var n := |rules| - 1;
      RulesReports(rules[..n], all, readings, now) + RuleReports(rules[n], DevicesOf(rules[n], all), readings, now)
  }

  /** The conditions that enabled rules find breached. */
  function BreachSet(rules: seq<Rule>, all: seq<nat>, readings: Readings, now: int, offline: bool): set<Fingerprint> {
    set r, d | r in rules && d in DevicesOf(r, all) && IsOfflineRule(r) == offline && Breaches(r, d, readings, now) ::
      BreachOf(r, d).fp
  }

  lemma {:induction false} WatchdogStep(assets: seq<Asset>, i: nat, now: int)
    requires i < |assets|
    ensures WatchdogReports(assets[..i + 1], now)
         == if IsOffline(assets[i], now) then WatchdogReports(assets[..i], now) + [Report(WatchdogBreach(assets[i]))]
            else WatchdogReports(assets[..i], now)
    ensures OfflineSet(assets[..i + 1], now)
         == OfflineSet(assets[..i], now) + if IsOffline(assets[i], now) then {BuiltinOffline(assets[i].id)} else {}
  {
    assert assets[..i + 1][..i] == assets[..i];
    assert assets[..i + 1] == assets[..i] + [assets[i]];
  }

  function BreachedDevices(r: Rule, devices: seq<nat>, readings: Readings, now: int): set<Fingerprint> {
    set d | d in devices && Breaches(r, d, readings, now) :: BreachOf(r, d).fp
  }

  lemma {:induction false} RuleStep(r: Rule, devices: seq<nat>, i: nat, readings: Readings, now: int)
    requires i < |devices|
    ensures RuleReports(r, devices[..i + 1], readings, now)
         == if Reports(r, devices[i], readings, now)
            then RuleReports(r, devices[..i], readings, now) + [Report(BreachOf(r, devices[i]))]
            else RuleReports(r, devices[..i], readings, now)
    ensures BreachedDevices(r, devices[..i + 1], readings, now)
         == BreachedDevices(r, devices[..i], readings, now)
            + if Breaches(r, devices[i], readings, now) then {BreachOf(r, devices[i]).fp} else {}
  {
    assert devices[..i + 1][..i] == devices[..i];
    assert devices[..i + 1] == devices[..i] + [devices[i]];
  }

  lemma {:induction false} RulesStep(rules: seq<Rule>, i: nat, all: seq<nat>, readings: Readings, now: int)
    requires i < |rules|
    ensures RulesReports(rules[..i + 1], all, readings, now)
         == RulesReports(rules[..i], all, readings, now)
            + RuleReports(rules[i], DevicesOf(rules[i], all), readings, now)
    ensures forall offline ::
      BreachSet(rules[..i + 1], all, readings, now, offline)
      == if IsOfflineRule(rules[i]) != offline then BreachSet(rules[..i], all, readings, now, offline)
         else BreachSet(rules[..i], all, readings, now, offline)
              + BreachedDevices(rules[i], DevicesOf(rules[i], all), readings, now)
  {
    assert rules[..i + 1][..i] == rules[..i];
    assert rules[..i + 1] == rules[..i] + [rules[i]];
  }

  // ----- runs put together -----

  function Ran(s: System, run: seq<Action>): System { After(s, run, |run|) }

  lemma {:induction false} AfterPrefix(s: System, xs: seq<Action>, ys: seq<Action>, n: nat)
    requires n <= |xs|
    ensures After(s, xs + ys, n) == After(s, xs, n)
    decreases n
  {
    if n > 0 {
      AfterPrefix(s, xs, ys, n - 1);
    }
  }

  lemma {:induction false} RanSnoc(s: System, xs: seq<Action>, a: Action)
    ensures Ran(s, xs + [a]) == Step(Ran(s, xs), a)
  {
    AfterPrefix(s, xs, [a], |xs|);
  }

  lemma {:induction false} RanAppend(s: System, xs: seq<Action>, ys: seq<Action>)
    ensures Ran(s, xs + ys) == Ran(Ran(s, xs), ys)
    decreases |ys|
  {
    if ys == [] {
      assert xs + ys == xs;
    } else {
      var n := |ys| - 1;
      assert ys == ys[..n] + [ys[n]] && xs + ys == (xs + ys[..n]) + [ys[n]];
      RanAppend(s, xs, ys[..n]);
      RanSnoc(s, xs + ys[..n], ys[n]);
      RanSnoc(Ran(s, xs), ys[..n], ys[n]);
    }
  }

  /** Closing two kinds one after the other resolves what closing both at once resolves. */
  lemma {:induction false} CloseBoth(t: Table, a: AlertKind, b: AlertKind, da: set<Fingerprint>, db: set<Fingerprint>,
                                     now: int)
    requires a != b
    ensures var ra := OpenOf(t, a) - da;
            var t1 := Resolve(t, ra, now);
            var rb := OpenOf(t1, b) - db;
            && ra + rb == CloseSet(t, map[a := da, b := db])
            && Resolve(t1, rb, now) == Resolve(t, ra + rb, now)
  {
  }

  // ----- what a pass leaves open -----

  predicate OnlyReports(run: seq<Action>) { forall a | a in run :: a.Report? }

  function ReportedIn(run: seq<Action>): set<Fingerprint> { set a | a in run && a.Report? :: a.breach.fp }

  lemma {:induction false} WatchdogReportsAre(assets: seq<Asset>, now: int)
    ensures OnlyReports(WatchdogReports(assets, now)) && ReportedIn(WatchdogReports(assets, now)) == OfflineSet(assets, now)
    decreases |assets|
  {
    if assets != [] {
      var n := |assets| - 1;
      WatchdogReportsAre(assets[..n], now);
      WatchdogStep(assets, n, now);
      assert assets[..n + 1] == assets;
    }
  }

  lemma {:induction false} ReportedAppend(xs: seq<Action>, ys: seq<Action>)
    ensures ReportedIn(xs + ys) == ReportedIn(xs) + ReportedIn(ys)
  {
    assert forall a :: a in xs + ys <==> a in xs || a in ys;
  }

  lemma {:induction false} ReportedOne(b: Breach)
    ensures ReportedIn([Report(b)]) == {b.fp}
  {
    assert [Report(b)][0] == Report(b) && Report(b) in [Report(b)];
  }

  lemma {:induction false} RuleReportsAre(r: Rule, devices: seq<nat>, readings: Readings, now: int)
    ensures OnlyReports(RuleReports(r, devices, readings, now))
    ensures ReportedIn(RuleReports(r, devices, readings, now))
         == BreachedDevices(r, devices, readings, now) - readings.failing
    decreases |devices|
  {
    if devices != [] {
      var n := |devices| - 1;
      RuleReportsAre(r, devices[..n], readings, now);
      RuleStep(r, devices, n, readings, now);
      assert devices[..n + 1] == devices;
      ReportedAppend(RuleReports(r, devices[..n], readings, now), [Report(BreachOf(r, devices[n]))]);
      ReportedOne(BreachOf(r, devices[n]));
    }
  }

  lemma {:induction false} RulesReportsAre(rules: seq<Rule>, all: seq<nat>, readings: Readings, now: int)
    ensures OnlyReports(RulesReports(rules, all, readings, now))
    ensures ReportedIn(RulesReports(rules, all, readings, now))
         == BreachSet(rules, all, readings, now, true) + BreachSet(rules, all, readings, now, false) - readings.failing
    decreases |rules|
  {
    if rules != [] {
      var n := |rules| - 1;
      RulesReportsAre(rules[..n], all, readings, now);
      RulesStep(rules, n, all, readings, now);
      RuleReportsAre(rules[n], DevicesOf(rules[n], all), readings, now);
      assert rules[..n + 1] == rules;
      ReportedAppend(RulesReports(rules[..n], all, readings, now),
                     RuleReports(rules[n], DevicesOf(rules[n], all), readings, now));
    }
  }

  /** Reports open what they are about and close nothing. */
  lemma {:induction false} ReportsOpen(s: System, run: seq<Action>, fp: Fingerprint)
    requires OnlyReports(run)
    ensures IsOpen(Ran(s, run).alerts, fp) <==> IsOpen(s.alerts, fp) || fp in ReportedIn(run)
    decreases |run|
  {
    if run != [] {
      var most, a := run[..|run| - 1], run[|run| - 1];
      assert run == most + [a] && a in run && forall x | x in most :: x in run;
      ReportsOpen(s, most, fp);
      RanSnoc(s, most, a);
      assert ReportedIn(run) == ReportedIn(most) + {a.breach.fp};
    }
  }

  lemma {:induction false} OpenIsOfKind(s: System, kind: AlertKind, fp: Fingerprint)
    requires Kinds(s)
    ensures fp in OpenOf(s.alerts, kind) <==> IsOpen(s.alerts, fp) && KindOfAlert(fp) == kind
  {
  }

  /** After an uninterrupted pass that reports and then closes, the open alerts of a kind are the breaching ones that
      were open before or were reported. */
  lemma {:induction false} PassIsExact(s: System, run: seq<Action>, desired: map<AlertKind, set<Fingerprint>>,
                                       kind: AlertKind)
    requires Kinds(s) && OnlyReports(run) && kind in desired
    requires forall fp | fp in desired[kind] :: KindOfAlert(fp) == kind
    ensures OpenOf(Ran(s, run + [Close(desired)]).alerts, kind)
         == set fp | fp in desired[kind] && (IsOpen(s.alerts, fp) || fp in ReportedIn(run))
  {
    var t := Ran(s, run);
    RanSnoc(s, run, Close(desired));
    CloseKeepsDesired(t, desired);
    RunKeepsKinds(s, run, |run|);
    forall fp ensures fp in OpenOf(t.alerts, kind) <==>
                      KindOfAlert(fp) == kind && (IsOpen(s.alerts, fp) || fp in ReportedIn(run)) {
      ReportsOpen(s, run, fp);
      OpenIsOfKind(t, kind, fp);
    }
  }

  /** After the watchdog's pass, if nothing fails, the open watchdog alerts are those of the offline assets. */
  lemma {:induction false} WatchdogPassIsExact(s: System, assets: seq<Asset>)
    requires Kinds(s)
    ensures var close := Close(map[KindBuiltinOffline := OfflineSet(assets, s.now)]);
            OpenOf(Ran(s, WatchdogReports(assets, s.now) + [close]).alerts, KindBuiltinOffline) == OfflineSet(assets, s.now)
  {
    WatchdogReportsAre(assets, s.now);
    PassIsExact(s, WatchdogReports(assets, s.now), map[KindBuiltinOffline := OfflineSet(assets, s.now)], KindBuiltinOffline);
  }

  /** What a rule pass leaves open of the conditions found breached: those whose upsert did not fail, and those that were
      open already. */
  function LeftOpen(s: System, breached: set<Fingerprint>, readings: Readings): set<Fingerprint> {
    set fp | fp in breached && (fp !in readings.failing || IsOpen(s.alerts, fp))
  }

  /** After a rule pass the open rule alerts of both kinds are those of the breached conditions, except conditions that
      were not open before and could not be written. */
  lemma {:induction false} RulePassIsExact(s: System, rules: seq<Rule>, all: seq<nat>, readings: Readings)
    requires Kinds(s)
    ensures var offline, metric := BreachSet(rules, all, readings, s.now, true), BreachSet(rules, all, readings, s.now, false);
            var t := Ran(s, RulesReports(rules, all, readings, s.now)
                            + [Close(map[KindRuleOffline := offline, KindRuleMetric := metric])]);
            OpenOf(t.alerts, KindRuleOffline) == LeftOpen(s, offline, readings)
            && OpenOf(t.alerts, KindRuleMetric) == LeftOpen(s, metric, readings)
  {
    var offline, metric := BreachSet(rules, all, readings, s.now, true), BreachSet(rules, all, readings, s.now, false);
    var desired := map[KindRuleOffline := offline, KindRuleMetric := metric];
    RulesReportsAre(rules, all, readings, s.now);
    PassIsExact(s, RulesReports(rules, all, readings, s.now), desired, KindRuleOffline);
    PassIsExact(s, RulesReports(rules, all, readings, s.now), desired, KindRuleMetric);
  }

  // ----- what that comes to, rule by rule and device by device -----

  /** A rule looks at one device, or at all if it names none. */
  predicate Targets(r: Rule, device: nat, all: seq<nat>) {
    device in all && (r.target == None || r.target == Some(0) || r.target == Some(device))
  }

  /** The comparison that the operator names; any other operator never holds. */
  predicate Exceeds(operator: string, value: real, threshold: real) {
    || (operator == ">" && value > threshold)
    || (operator == "<" && value < threshold)
    || (operator == ">=" && value >= threshold)
    || (operator == "<=" && value <= threshold)
    || (operator == "==" && value - threshold <= 0.000001 && threshold - value <= 0.000001)
  }

  /** Percentages are not negative. */
  predicate IsPercentage(metric: string) {
    metric == "cpu_usage" || metric == "ram_usage_percent" || metric == "disk_usage_percent"
  }

  /** There is a sample of the metric, and it exceeds the rule's threshold. */
  predicate MetricExceeds(r: Rule, device: nat, readings: Readings) {
    && (r.id, device) in readings.averages
    && var average := readings.averages[(r.id, device)];
       Exceeds(TrimSpace(r.operator), if IsPercentage(TrimSpace(r.metric)) && average < 0.0 then 0.0 else average, r.threshold)
  }

  /** It is known when the device was seen last, and that is so long ago; a device never seen counts as 10^12 seconds. */
  predicate SilenceExceeds(r: Rule, device: nat, readings: Readings, now: int) {
    && device in readings.lastSeen
    && Exceeds(TrimSpace(r.operator),
               match readings.lastSeen[device] case None => 1000000000000.0 case Some(t) => (now - t) as real, r.threshold)
  }

  lemma {:induction false} TargetsIff(r: Rule, device: nat, all: seq<nat>)
    ensures Targets(r, device, all) <==> device in DevicesOf(r, all)
  {
  }

  lemma {:induction false} BreachesIff(r: Rule, device: nat, readings: Readings, now: int)
    ensures Breaches(r, device, readings, now) <==>
      if TrimSpace(r.metric) == "offline_status" then SilenceExceeds(r, device, readings, now)
      else MetricExceeds(r, device, readings)
  {
  }

  /** Some rule of this id about a metric is exceeded by a device it targets. */
  predicate MetricRuleHit(rules: seq<Rule>, all: seq<nat>, readings: Readings, id: nat, device: nat) {
    exists r | r in rules :: r.id == id && TrimSpace(r.metric) != "offline_status" && Targets(r, device, all)
                             && MetricExceeds(r, device, readings)
  }

  predicate OfflineRuleHit(rules: seq<Rule>, all: seq<nat>, readings: Readings, now: int, id: nat, device: nat) {
    exists r | r in rules :: r.id == id && TrimSpace(r.metric) == "offline_status" && Targets(r, device, all)
                             && SilenceExceeds(r, device, readings, now)
  }

  lemma {:induction false} MetricHitIff(rules: seq<Rule>, all: seq<nat>, readings: Readings, now: int, id: nat, device: nat)
    ensures RuleMetric(id, device) in BreachSet(rules, all, readings, now, false)
       <==> MetricRuleHit(rules, all, readings, id, device)
  {
    forall r ensures Targets(r, device, all) <==> device in DevicesOf(r, all) { TargetsIff(r, device, all); }
    forall r ensures Breaches(r, device, readings, now) <==>
      if TrimSpace(r.metric) == "offline_status" then SilenceExceeds(r, device, readings, now)
      else MetricExceeds(r, device, readings)
    {
      BreachesIff(r, device, readings, now);
    }
  }

  lemma {:induction false} OfflineHitIff(rules: seq<Rule>, all: seq<nat>, readings: Readings, now: int, id: nat, device: nat)
    ensures RuleOffline(id, device) in BreachSet(rules, all, readings, now, true)
       <==> OfflineRuleHit(rules, all, readings, now, id, device)
  {
    forall r ensures Targets(r, device, all) <==> device in DevicesOf(r, all) { TargetsIff(r, device, all); }
    forall r ensures Breaches(r, device, readings, now) <==>
      if TrimSpace(r.metric) == "offline_status" then SilenceExceeds(r, device, readings, now)
      else MetricExceeds(r, device, readings)
    {
      BreachesIff(r, device, readings, now);
    }
  }

  /** The open rule alerts are those of the rules that are hit, as severe as the rule says. */
  ghost predicate AlertsFollowRules(t: Table, rules: seq<Rule>, all: seq<nat>, readings: Readings, now: int) {
    && (forall id, d :: IsOpen(t, RuleMetric(id, d)) <==> MetricRuleHit(rules, all, readings, id, d))
    && (forall id, d :: IsOpen(t, RuleOffline(id, d)) <==> OfflineRuleHit(rules, all, readings, now, id, d))
    && (forall fp | IsOpen(t, fp) && !fp.BuiltinOffline? :: HasSeverityOf(t[fp].severity, rules, fp.rule))
  }

  predicate HasSeverityOf(severity: Severity, rules: seq<Rule>, id: nat) {
    exists r | r in rules :: r.id == id && r.severity == severity
  }

  lemma {:induction false} RuleReportsSay(r: Rule, devices: seq<nat>, readings: Readings, now: int, b: Breach)
    requires Report(b) in RuleReports(r, devices, readings, now)
    ensures b.severity == r.severity && !b.fp.BuiltinOffline? && b.fp.rule == r.id
    decreases |devices|
  {
    var n := |devices| - 1;
    if Report(b) in RuleReports(r, devices[..n], readings, now) { RuleReportsSay(r, devices[..n], readings, now, b); }
  }

  lemma {:induction false} RulesReportsSay(rules: seq<Rule>, all: seq<nat>, readings: Readings, now: int, b: Breach)
    requires Report(b) in RulesReports(rules, all, readings, now)
    ensures !b.fp.BuiltinOffline? && HasSeverityOf(b.severity, rules, b.fp.rule)
    decreases |rules|
  {
    var n := |rules| - 1;
    if Report(b) in RulesReports(rules[..n], all, readings, now) {
      RulesReportsSay(rules[..n], all, readings, now, b);
      var r :| r in rules[..n] && r.id == b.fp.rule && r.severity == b.severity;
      assert r in rules;
    } else {
      RuleReportsSay(rules[n], DevicesOf(rules[n], all), readings, now, b);
      assert rules[n] in rules;
    }
  }

  lemma {:induction false} WatchdogReportsSay(assets: seq<Asset>, now: int, b: Breach)
    requires Report(b) in WatchdogReports(assets, now)
    ensures b.severity == Critical
    decreases |assets|
  {
    var n := |assets| - 1;
    if Report(b) in WatchdogReports(assets[..n], now) { WatchdogReportsSay(assets[..n], now, b); }
  }

  /** An alert that was reported and is open after the closing still says what its last report said. */
  lemma {:induction false} SeverityStays(s: System, reports: seq<Action>, close: Action, fp: Fingerprint) returns (b: Breach)
    requires OnlyReports(reports) && close.Close? && fp in ReportedIn(reports)
    requires IsOpen(Ran(s, reports + [close]).alerts, fp)
    ensures Report(b) in reports && b.fp == fp && Ran(s, reports + [close]).alerts[fp].severity == b.severity
  {
    b := SaysWhatWasReported(s, reports, fp);
    RanSnoc(s, reports, close);
  }

  lemma {:induction false} UndisturbedRulePass(s: System, rules: seq<Rule>, all: seq<nat>, readings: Readings,
                                               run: seq<Action>, t: System)
    requires Kinds(s) && readings.failing == {}
    requires run == RulesReports(rules, all, readings, s.now)
                    + [Close(map[KindRuleOffline := BreachSet(rules, all, readings, s.now, true),
                                 KindRuleMetric := BreachSet(rules, all, readings, s.now, false)])]
    requires t == Ran(s, run)
    ensures AlertsFollowRules(t.alerts, rules, all, readings, s.now)
  {
    RulePassIsExact(s, rules, all, readings);
    RunKeepsKinds(s, run, |run|);
    assert LeftOpen(s, BreachSet(rules, all, readings, s.now, true), readings) == BreachSet(rules, all, readings, s.now, true);
    assert LeftOpen(s, BreachSet(rules, all, readings, s.now, false), readings) == BreachSet(rules, all, readings, s.now, false);
    forall id, d ensures IsOpen(t.alerts, RuleMetric(id, d)) <==> MetricRuleHit(rules, all, readings, id, d) {
      OpenIsOfKind(t, KindRuleMetric, RuleMetric(id, d));
      MetricHitIff(rules, all, readings, s.now, id, d);
    }
    forall id, d ensures IsOpen(t.alerts, RuleOffline(id, d)) <==> OfflineRuleHit(rules, all, readings, s.now, id, d) {
      OpenIsOfKind(t, KindRuleOffline, RuleOffline(id, d));
      OfflineHitIff(rules, all, readings, s.now, id, d);
    }
    var reports := RulesReports(rules, all, readings, s.now);
    RulesReportsAre(rules, all, readings, s.now);
    forall fp | IsOpen(t.alerts, fp) && !fp.BuiltinOffline? ensures HasSeverityOf(t.alerts[fp].severity, rules, fp.rule) {
      OpenIsOfKind(t, KindOfAlert(fp), fp);
      var b := SeverityStays(s, reports, run[|reports|], fp);
      RulesReportsSay(rules, all, readings, s.now, b);
    }
  }

  /** The open watchdog alerts are those of the assets never seen, or last seen more than 300 seconds ago, and critical. */
  ghost predicate AlertsFollowSilence(t: Table, assets: seq<Asset>, now: int) {
    && (forall id :: IsOpen(t, BuiltinOffline(id)) <==>
          exists a | a in assets :: a.id == id && (a.lastSeen.None? || now - a.lastSeen.value > 300))
    && (forall id :: IsOpen(t, BuiltinOffline(id)) ==> t[BuiltinOffline(id)].severity == Critical)
  }

  lemma {:induction false} UndisturbedWatchdog(s: System, assets: seq<Asset>, run: seq<Action>, t: System)
    requires Kinds(s) && t == Ran(s, run)
    requires run == WatchdogReports(assets, s.now) + [Close(map[KindBuiltinOffline := OfflineSet(assets, s.now)])]
    ensures AlertsFollowSilence(t.alerts, assets, s.now)
  {
    WatchdogPassIsExact(s, assets);
    RunKeepsKinds(s, run, |run|);
    forall id ensures IsOpen(t.alerts, BuiltinOffline(id)) <==>
      exists a | a in assets :: a.id == id && (a.lastSeen.None? || s.now - a.lastSeen.value > 300)
    {
      OpenIsOfKind(t, KindBuiltinOffline, BuiltinOffline(id));
      SilentIff(assets, s.now, id);
    }
    var reports := WatchdogReports(assets, s.now);
    WatchdogReportsAre(assets, s.now);
    forall id | IsOpen(t.alerts, BuiltinOffline(id)) ensures t.alerts[BuiltinOffline(id)].severity == Critical {
      OpenIsOfKind(t, KindBuiltinOffline, BuiltinOffline(id));
      var b := SeverityStays(s, reports, run[|reports|], BuiltinOffline(id));
      WatchdogReportsSay(assets, s.now, b);
    }
  }

  lemma {:induction false} SilentIff(assets: seq<Asset>, now: int, id: nat)
    ensures BuiltinOffline(id) in OfflineSet(assets, now)
       <==> exists a | a in assets :: a.id == id && (a.lastSeen.None? || now - a.lastSeen.value > 300)
  {
    if a :| a in assets && a.id == id && (a.lastSeen.None? || now - a.lastSeen.value > 300) { assert IsOffline(a, now); }
  }

  /** An alert that was reported says what its last report said. */
  lemma {:induction false} SaysWhatWasReported(s: System, run: seq<Action>, fp: Fingerprint) returns (b: Breach)
    requires OnlyReports(run) && fp in ReportedIn(run)
    ensures Report(b) in run && b.fp == fp
    ensures var t := Ran(s, run); IsOpen(t.alerts, fp) && t.alerts[fp].severity == b.severity
    decreases |run|
  {
    var most, a := run[..|run| - 1], run[|run| - 1];
    assert run == most + [a] && a in run && forall x | x in most :: x in run;
    RanSnoc(s, most, a);
    if a.breach.fp == fp {
      b := a.breach;
    } else {
      assert ReportedIn(run) == ReportedIn(most) + {a.breach.fp};
      b := SaysWhatWasReported(s, most, fp);
    }
  }

  /** The assets that the watchdog gets through: it stops at the first alert it cannot write. */
  function UntilFailure(assets: seq<Asset>, now: int, failing: set<Fingerprint>): (n: nat)
    ensures n <= |assets|
  {
    if assets == [] then 0
    else
      var n := UntilFailure(assets[..|assets| - 1], now, failing);
      var last := assets[|assets| - 1];
      if n == |assets| - 1 && !(IsOffline(last, now) && BuiltinOffline(last.id) in failing) then |assets| else n
  }

  lemma {:induction false} UntilFailureStep(assets: seq<Asset>, i: nat, now: int, failing: set<Fingerprint>)
    requires i < |assets| && UntilFailure(assets[..i], now, failing) == i
    ensures IsOffline(assets[i], now) && BuiltinOffline(assets[i].id) in failing ==>
      UntilFailure(assets, now, failing) == i
    ensures !(IsOffline(assets[i], now) && BuiltinOffline(assets[i].id) in failing) ==>
      UntilFailure(assets[..i + 1], now, failing) == i + 1
  {
    assert assets[..i + 1][..i] == assets[..i];
    if IsOffline(assets[i], now) && BuiltinOffline(assets[i].id) in failing {
      StaysFailed(assets, i + 1, now, failing);
    }
  }

  lemma {:induction false} StaysFailed(assets: seq<Asset>, i: nat, now: int, failing: set<Fingerprint>)
    requires i <= |assets| && UntilFailure(assets[..i], now, failing) < i
    ensures UntilFailure(assets, now, failing) == UntilFailure(assets[..i], now, failing)
    decreases |assets|
  {
    if i == |assets| {
      assert assets[..i] == assets;
    } else {
      var most := assets[..|assets| - 1];
      assert most[..i] == assets[..i];
      StaysFailed(most, i, now, failing);
    }
  }

  /** How the closings at the end of a rule pass end. */
  datatype Closings = BothClose | OfflineFails | MetricFails

  class Engine {
    var now: int
    const alerts: AlertStore
    const incidents: IncidentStore
    /** hooks queued and not yet run, oldest first */
    var hooks: seq<Hook>
    /** notifications handed to the dispatcher */
    var notices: seq<Fingerprint>

    constructor ()
      ensures fresh(alerts) && fresh(incidents) && State() == START && Consistent(incidents.log)
    {
      now := 0;
      alerts := new AlertStore();
      incidents := new IncidentStore();
      hooks, notices := [], [];
    }

    function State(): System
      reads this, alerts, incidents
    {
      System(now, alerts.rows, hooks, incidents.log, notices)
    }

    /** Upsert, notify if the cadence allows, and queue an incident for a critical alert. */
    method ReportBreach(b: Breach)
      modifies this`hooks, this`notices, alerts
      ensures State() == Step(old(State()), Report(b))
    {
      var shouldNotify := alerts.UpsertUnresolvedAlert(b, now);
      if shouldNotify {
        notices := notices + [b.fp];
      }
      if b.severity == Critical {
        hooks := hooks + [OpenIncident(b.fp, b.title)];
      }
    }

    method SubmitResolved(fps: set<Fingerprint>)
      modifies this`hooks
      ensures hooks == QueueRecovery(old(hooks), fps)
    {
      if fps != {} {
        hooks := hooks + [Recovery(fps)];
      }
    }

    method OnHeartbeat(device: nat)
      modifies this`hooks, alerts
      ensures State() == Step(old(State()), Heartbeat(device))
    {
      if device == 0 {
        assert Resolve(alerts.rows, {}, now) == alerts.rows;
        return;
      }
      var ok, fps := alerts.ResolveActiveAlertsKindsForDevice(device, now);
      if ok { SubmitResolved(fps); }
    }

    /** evaluateBuiltinOffline: a run that reports every offline asset and then closes; or reports those before the first
        that cannot be written, and does not close. */
    method EvaluateBuiltinOffline(assets: seq<Asset>, failing: set<Fingerprint>, closeOk: bool) returns (ok: bool)
      modifies this`hooks, this`notices, alerts
      ensures ok <==> UntilFailure(assets, old(now), failing) == |assets| && closeOk
      ensures ok ==> State() == Ran(old(State()), WatchdogReports(assets, old(now))
                                                  + [Close(map[KindBuiltinOffline := OfflineSet(assets, old(now))])])
      ensures !ok ==> State() == Ran(old(State()), WatchdogReports(assets[..UntilFailure(assets, old(now), failing)], old(now)))
      ensures ok && Kinds(old(State())) ==> AlertsFollowSilence(alerts.rows, assets, old(now))
    {
      ghost var s0, run := State(), WatchdogReports(assets, now);
      var desired: set<Fingerprint> := {};
      for i := 0 to |assets|
        invariant State() == Ran(s0, WatchdogReports(assets[..i], now))
        invariant desired == OfflineSet(assets[..i], now)
        invariant UntilFailure(assets[..i], now, failing) == i
      {
        WatchdogStep(assets, i, now);
        UntilFailureStep(assets, i, now, failing);
        if IsOffline(assets[i], now) {
          var b := WatchdogBreach(assets[i]);
          desired := desired + {b.fp};
          if b.fp in failing { return false; }
          RanSnoc(s0, WatchdogReports(assets[..i], now), Report(b));
          ReportBreach(b);
        }
      }
      assert assets[..|assets|] == assets;
      if !closeOk { return false; }
      RanSnoc(s0, run, Close(map[KindBuiltinOffline := desired]));
      assert CloseSet(alerts.rows, map[KindBuiltinOffline := desired]) == OpenOf(alerts.rows, KindBuiltinOffline) - desired;
      var resolved := alerts.CloseAlertsKindsExcept(KindBuiltinOffline, desired, now);
      SubmitResolved(resolved);
      ok := true;
      ghost var whole := run + [Close(map[KindBuiltinOffline := desired])];
      if Kinds(s0) { UndisturbedWatchdog(s0, assets, whole, State()); }
    }

    /** handleOfflineRule and handleTelemetryRule: the loop over the devices of one rule. */
    method HandleRule(r: Rule, devices: seq<nat>, readings: Readings, desired: set<Fingerprint>)
      returns (desired': set<Fingerprint>)
      modifies this`hooks, this`notices, alerts
      ensures State() == Ran(old(State()), RuleReports(r, devices, readings, old(now)))
      ensures desired' == desired + BreachedDevices(r, devices, readings, old(now))
    {
      ghost var s0 := State();
      desired' := desired;
      for i := 0 to |devices|
        invariant State() == Ran(s0, RuleReports(r, devices[..i], readings, now))
        invariant desired' == desired + BreachedDevices(r, devices[..i], readings, now)
      {
        RuleStep(r, devices, i, readings, now);
        if Breaches(r, devices[i], readings, now) {
          var b := BreachOf(r, devices[i]);
          desired' := desired' + {b.fp};
          if b.fp !in readings.failing {
            RanSnoc(s0, RuleReports(r, devices[..i], readings, now), Report(b));
            ReportBreach(b);
          }
        }
      }
      assert devices[..|devices|] == devices;
    }

    /** The loop over the enabled rules, which stops when the devices of a rule cannot be listed. */
    method HandleRules(rules: seq<Rule>, all: seq<nat>, readings: Readings, listed: nat)
      returns (ok: bool, desiredOffline: set<Fingerprint>, desiredMetric: set<Fingerprint>)
      modifies this`hooks, this`notices, alerts
      ensures ok <==> listed >= |rules|
      ensures ok ==> State() == Ran(old(State()), RulesReports(rules, all, readings, old(now)))
      ensures !ok ==> State() == Ran(old(State()), RulesReports(rules[..listed], all, readings, old(now)))
      ensures ok ==> desiredOffline == BreachSet(rules, all, readings, old(now), true)
      ensures ok ==> desiredMetric == BreachSet(rules, all, readings, old(now), false)
    {
      ghost var s0 := State();
      desiredOffline, desiredMetric := {}, {};
      for i := 0 to |rules|
        invariant i <= listed
        invariant State() == Ran(s0, RulesReports(rules[..i], all, readings, now))
        invariant desiredOffline == BreachSet(rules[..i], all, readings, now, true)
        invariant desiredMetric == BreachSet(rules[..i], all, readings, now, false)
      {
        if i == listed { return false, desiredOffline, desiredMetric; }
        var r := rules[i];
        var devices := DevicesOf(r, all);
        RulesStep(rules, i, all, readings, now);
        RanAppend(s0, RulesReports(rules[..i], all, readings, now), RuleReports(r, devices, readings, now));
        if IsOfflineRule(r) {
          desiredOffline := HandleRule(r, devices, readings, desiredOffline);
        } else {
          desiredMetric := HandleRule(r, devices, readings, desiredMetric);
        }
      }
      assert rules[..|rules|] == rules;
      ok := true;
    }

    /** Both closings of a rule pass, and one hook for what they resolved. If the second fails, what the first resolved is
        forgotten. */
    method CloseRules(desiredOffline: set<Fingerprint>, desiredMetric: set<Fingerprint>, closings: Closings)
      modifies this`hooks, alerts
      ensures closings == BothClose ==>
        State() == Step(old(State()), Close(map[KindRuleOffline := desiredOffline, KindRuleMetric := desiredMetric]))
      ensures closings == OfflineFails ==> State() == old(State())
      ensures closings == MetricFails ==> State() == Step(old(State()), LostClose(map[KindRuleOffline := desiredOffline]))
    {
      if closings == OfflineFails { return; }
      CloseBoth(alerts.rows, KindRuleOffline, KindRuleMetric, desiredOffline, desiredMetric, now);
      assert CloseSet(alerts.rows, map[KindRuleOffline := desiredOffline])
          == OpenOf(alerts.rows, KindRuleOffline) - desiredOffline;
      var offline := alerts.CloseAlertsKindsExcept(KindRuleOffline, desiredOffline, now);
      if closings == MetricFails { return; }
      var metric := alerts.CloseAlertsKindsExcept(KindRuleMetric, desiredMetric, now);
      SubmitResolved(offline + metric);
    }

    /** evaluateDeviceRules: a run that reports the breached conditions that can be written and then closes both kinds; or
        that ends at the first rule whose devices cannot be listed, after `listed` rules, and closes nothing. */
    method EvaluateDeviceRules(rules: seq<Rule>, all: seq<nat>, readings: Readings, listed: nat, closings: Closings)
      modifies this`hooks, this`notices, alerts
      ensures var reports := RulesReports(rules, all, readings, old(now));
        var offline := BreachSet(rules, all, readings, old(now), true);
        var metric := BreachSet(rules, all, readings, old(now), false);
        State() == if listed < |rules| then Ran(old(State()), RulesReports(rules[..listed], all, readings, old(now)))
                   else match closings
                        case BothClose =>
                          Ran(old(State()), reports + [Close(map[KindRuleOffline := offline, KindRuleMetric := metric])])
                        case OfflineFails => Ran(old(State()), reports)
                        case MetricFails => Ran(old(State()), reports + [LostClose(map[KindRuleOffline := offline])])
      ensures listed >= |rules| && closings == BothClose && readings.failing == {} && Kinds(old(State())) ==>
        AlertsFollowRules(alerts.rows, rules, all, readings, old(now))
    {
      var ok, desiredOffline, desiredMetric := HandleRules(rules, all, readings, listed);
      if !ok { return; }
      CloseRules(desiredOffline, desiredMetric, closings);
      ghost var reports := RulesReports(rules, all, readings, now);
      RanSnoc(old(State()), reports, Close(map[KindRuleOffline := desiredOffline, KindRuleMetric := desiredMetric]));
      RanSnoc(old(State()), reports, LostClose(map[KindRuleOffline := desiredOffline]));
      if closings == BothClose && readings.failing == {} && Kinds(old(State())) {
        ghost var run := reports + [Close(map[KindRuleOffline := desiredOffline, KindRuleMetric := desiredMetric])];
        UndisturbedRulePass(old(State()), rules, all, readings, run, State());
      }
    }

    /** One of the waiting hooks runs. An opening may fail, and use up a number in vain; a recovery gets through for the
        first `until` of its fingerprints, in whatever order they were listed. */
    method DeliverHook(i: nat, until: nat, fault: Fault) returns (reached: set<Fingerprint>, drawn: bool)
      requires Consistent(incidents.log)
      modifies this`hooks, incidents
      ensures var t := Step(old(State()), Deliver(i, reached)); State() == if drawn then Step(t, DrawNumber) else t
      ensures Consistent(incidents.log)
      ensures i < |old(hooks)| ==>
        match old(hooks)[i]
        case OpenIncident(fp, _) =>
          reached == (if fault == NoFault then {fp} else {}) && drawn == DrawsInVain(old(incidents.log), fp, fault)
        case Recovery(fps) =>
          !drawn && reached <= fps && |reached| == if until < |fps| then until else |fps|
      ensures i >= |old(hooks)| ==> !drawn
    {
      reached, drawn := {}, false;
      if i >= |hooks| { return; }
      var h := hooks[i];
      hooks := hooks[..i] + hooks[i + 1..];
      match h
      case OpenIncident(fp, title) =>
        drawn := DrawsInVain(incidents.log, fp, fault);
        var _ := incidents.UpsertIncident(fp, title, Critical, now, fault);
        if fault == NoFault {
          reached := {fp};
          RunOne(old(incidents.log), [h], now);
        }
      case Recovery(fps) =>
        var listed := ListOf(fps);
        var _ := incidents.AutoResolve(listed, until);
        reached := set fp | fp in Reached(listed, until);
        Members(Reached(listed, until));
        RecoveryOf(old(incidents.log), h, reached, now);
    }
  }

  lemma {:induction false} RecoveryOf(l: Log, h: Hook, reached: set<Fingerprint>, now: int)
    requires h.Recovery? && reached <= h.fps
    ensures RunAll(l, Part(h, reached), now) == AutoResolved(l, reached)
  {
    assert h.fps * reached == reached;
    if reached == {} {
      assert AutoResolved(l, {}).rows == l.rows;
    } else {
      RunOne(l, Part(h, reached), now);
    }
  }

  predicate Distinct(fps: seq<Fingerprint>) { forall i, j | 0 <= i < j < |fps| :: fps[i] != fps[j] }

  lemma {:induction false} Members(fps: seq<Fingerprint>)
    requires Distinct(fps)
    ensures |set fp | fp in fps| == |fps|
  {
    if fps != [] {
      var most := fps[..|fps| - 1];
      Members(most);
      assert fps == most + [fps[|fps| - 1]];
      assert (set fp | fp in fps) == (set fp | fp in most) + {fps[|fps| - 1]};
    }
  }

  method ListOf(fps: set<Fingerprint>) returns (listed: seq<Fingerprint>)
    ensures (set fp | fp in listed) == fps && Distinct(listed) && |listed| == |fps|
  {
    listed := [];
    var rest := fps;
    while rest != {}
      invariant forall x :: x in listed <==> x in fps && x !in rest
      invariant Distinct(listed) && rest <= fps
      decreases rest
    {
      var fp :| fp in rest;
      listed, rest := listed + [fp], rest - {fp};
    }
    Members(listed);
  }
}
