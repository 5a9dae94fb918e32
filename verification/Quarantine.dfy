/** The compliance status of one device over a run of telemetry reports, and the automatic quarantine it triggers. */
module Quarantine {
  import opened Text
  import opened Json
  import opened Compliance

  datatype Status = Compliant | NonCompliant | Evaluating

  datatype Enforcement = Enforcement(state: string, detail: string, criticalFailed: bool)

  datatype Posture = Posture(status: Status, reason: string, quarantined: bool)

  /** One call of EvaluateAfterTelemetry: what it is given, and how the calls it makes turn out. */
  datatype Telemetry = Telemetry(
    readOk: bool,                        // the stored status could be read
    merged: Option<map<string, Json>>,   // the effective payload; None if merging failed
    enforcement: Option<Enforcement>,
    writeOk: bool,                       // the new status could be stored
    auto: bool,                          // tenant setting; false if it could not be read
    certSerial: string,
    insertOk: bool,                      // the quarantine command could be inserted
    flagOk: bool,                        // the quarantine flag could be stored
    connected: bool,                     // the command could be handed to the agent's connection
    markOk: bool)                        // and could be marked as sent

  /** What a call stored, and whether it enqueued a quarantine command. */
  datatype Effect = Effect(recorded: Option<Status>, commanded: bool)

  predicate HasCritical(t: Telemetry) {
    t.merged.None? || CarriesCriticalControls(t.merged.value)
  }

  /** The status and reason to store; None when a report without enforcement data leaves a decided status alone. */
  function Decide(previous: Option<Status>, t: Telemetry): Option<(Status, string)> {
    match t.enforcement
    case None =>
      if previous.Some? && previous.value != Evaluating then None else Some((Evaluating, ""))
    case Some(e) =>
      var st := ToLower(TrimSpace(e.state));
      if st == "ok" || st == "success" || st == "applied" then Some((Compliant, ""))
      else if st == "error" || st == "failed" then
        if e.criticalFailed || HasCritical(t) then
          var reason := TrimSpace(e.detail);
          Some((NonCompliant, if reason == "" then "critical security policy enforcement failed" else reason))
        else Some((Compliant, ""))
      else if HasCritical(t) then Some((Evaluating, TrimSpace(e.detail)))
      else Some((Compliant, ""))
  }

  const MAX_REASON := 8192

  /** SetAssetCompliance stores at most 8192 bytes of a reason. */
  function Capped(reason: string): string { if |reason| > MAX_REASON then reason[..MAX_REASON] else reason }

  function Previous(p: Posture, t: Telemetry): Option<Status> {
    if t.readOk then Some(p.status) else None
  }

  function Step(p: Posture, t: Telemetry): (Posture, Effect) {
    match Decide(Previous(p, t), t)
    case None => (p, Effect(None, false))
    case Some((status, reason)) =>
      if !t.writeOk then (p, Effect(None, false))
      else
        var q := p.(status := status, reason := Capped(TrimSpace(reason)));
        if t.auto && status == NonCompliant && Previous(p, t) != Some(NonCompliant) && t.certSerial != ""
           && t.insertOk
        then (if t.flagOk then q.(quarantined := true) else q, Effect(Some(status), true))
        else (q, Effect(Some(status), false))
  }

  // ----- what a report means -----

  function StateOf(e: Enforcement): string { ToLower(TrimSpace(e.state)) }

  predicate Succeeded(e: Enforcement) { StateOf(e) == "ok" || StateOf(e) == "success" || StateOf(e) == "applied" }

  predicate Failed(e: Enforcement) { StateOf(e) == "error" || StateOf(e) == "failed" }

  /** The report calls for a new status: it has enforcement data, or the status is not known or still open. */
  predicate CallsForStatus(p: Posture, t: Telemetry) { t.enforcement.Some? || !t.readOk || p.status == Evaluating }

  predicate ShowsFailure(t: Telemetry) {
    t.enforcement.Some? && Failed(t.enforcement.value) && (t.enforcement.value.criticalFailed || HasCritical(t))
  }

  /** No data, or a state of its own that may concern critical controls. */
  predicate LeavesOpen(t: Telemetry) {
    t.enforcement.None?
    || (!Succeeded(t.enforcement.value) && !Failed(t.enforcement.value) && HasCritical(t))
  }

  /** Success; or nothing critical is concerned: neither by the policy nor, if enforcement failed, by what failed. */
  predicate ShowsCompliance(t: Telemetry) {
    t.enforcement.Some?
    && (Succeeded(t.enforcement.value)
        || (!HasCritical(t) && !(Failed(t.enforcement.value) && t.enforcement.value.criticalFailed)))
  }

  function ReasonFor(t: Telemetry): string {
    if t.enforcement.None? || ShowsCompliance(t) then ""
    else if ShowsFailure(t) && TrimSpace(t.enforcement.value.detail) == "" then "critical security policy enforcement failed"
    else TrimSpace(t.enforcement.value.detail)
  }

  /** Quarantine is due: the device turns out non-compliant, was not read to be so, and can be quarantined. */
  predicate QuarantineDue(p: Posture, t: Telemetry) {
    ShowsFailure(t) && t.writeOk && (t.readOk ==> p.status != NonCompliant) && t.auto && t.certSerial != ""
  }

  lemma {:induction false} OneOfThree(t: Telemetry)
    ensures ShowsCompliance(t) ==> !ShowsFailure(t) && !LeavesOpen(t)
    ensures ShowsFailure(t) ==> !LeavesOpen(t)
    ensures ShowsCompliance(t) || ShowsFailure(t) || LeavesOpen(t)
  {
    if t.enforcement.Some? && Succeeded(t.enforcement.value) { assert !Failed(t.enforcement.value); }
  }

  lemma {:induction false} DecideMeans(p: Posture, t: Telemetry)
    ensures Decide(Previous(p, t), t).Some? <==> CallsForStatus(p, t)
    ensures CallsForStatus(p, t) ==>
      var (status, reason) := Decide(Previous(p, t), t).value;
      && (status == Compliant <==> ShowsCompliance(t))
      && (status == NonCompliant <==> ShowsFailure(t))
      && (status == Evaluating <==> LeavesOpen(t))
      && TrimSpace(reason) == ReasonFor(t)
  {
    OneOfThree(t);
    TrimNothing("");
    TrimNothing("critical security policy enforcement failed");
    if t.enforcement.Some? { TrimTwice(t.enforcement.value.detail); }
  }

  /** The posture after a report: unchanged if nothing is called for or it cannot be written; else the status and reason
      that the report shows. The quarantine flag is set with a command, and never cleared. */
  predicate IsStored(p: Posture, t: Telemetry, q: Posture) {
    && (!CallsForStatus(p, t) || !t.writeOk ==> q == p)
    && (CallsForStatus(p, t) && t.writeOk ==>
          && (q.status == Compliant <==> ShowsCompliance(t))
          && (q.status == NonCompliant <==> ShowsFailure(t))
          && (q.status == Evaluating <==> LeavesOpen(t))
          && q.reason == if |ReasonFor(t)| > 8192 then ReasonFor(t)[..8192] else ReasonFor(t))
    && (q.quarantined <==> p.quarantined || (QuarantineDue(p, t) && t.insertOk && t.flagOk))
  }

  lemma {:induction false} StepMeans(p: Posture, t: Telemetry)
    ensures IsStored(p, t, Step(p, t).0)
    ensures Step(p, t).1.commanded <==> QuarantineDue(p, t) && t.insertOk
    ensures Decide(Previous(p, t), t).Some? <==> CallsForStatus(p, t)
  {
    DecideMeans(p, t);
  }

  lemma {:induction false} TrimTwice(s: string)
    ensures TrimSpace(TrimSpace(s)) == TrimSpace(s)
  {
    var a, b := TrimmedParts(s);
    TrimNothing(TrimSpace(s));
  }

  /** The status switch; `decided` is false where the original returns early. */
  method Judge(prev: Option<Status>, t: Telemetry) returns (decided: bool, status: Status, reason: string)
    ensures decided == Decide(prev, t).Some?
    ensures decided ==> Decide(prev, t).value == (status, reason)
  {
    status, reason := Evaluating, "";
    var hasCritical := t.merged.None? || CarriesCriticalControls(t.merged.value);
    if t.enforcement.None? {
      if prev.Some? && prev.value != Evaluating { return false, status, reason; }
    } else {
      var e := t.enforcement.value;
      var st := ToLower(TrimSpace(e.state));
      if st == "ok" || st == "success" || st == "applied" {
        status := Compliant;
      } else if st == "error" || st == "failed" {
        if e.criticalFailed || hasCritical {
          status, reason := NonCompliant, TrimSpace(e.detail);
          if reason == "" {
            reason := "critical security policy enforcement failed";
          }
        } else {
          status := Compliant;
        }
      } else if hasCritical {
        reason := TrimSpace(e.detail);
      } else {
        status := Compliant;
      }
    }
    decided := true;
  }

  class Device {
    var posture: Posture
    /** quarantine commands in the order they were enqueued: the number of the report that caused each */
    var commands: seq<nat>
    /** the commands handed to the agent at once; the others wait for it to connect */
    var dispatched: seq<nat>
    /** the commands marked as sent */
    var sent: seq<nat>
    var reports: nat

    constructor ()
      ensures posture == Posture(Evaluating, "", false) && commands == [] && dispatched == [] && sent == [] && reports == 0
    {
      posture := Posture(Evaluating, "", false);
      commands, dispatched, sent, reports := [], [], [], 0;
    }

    /** EvaluateAfterTelemetry: a report that calls for a status stores one of three, with its reason, and fails if it cannot;
        a quarantine command is inserted when quarantine is due. */
    method EvaluateAfterTelemetry(t: Telemetry) returns (ok: bool)
      modifies this
      ensures !ok <==> CallsForStatus(old(posture), t) && !t.writeOk
      ensures IsStored(old(posture), t, posture) && posture == Step(old(posture), t).0
      ensures var enqueued := QuarantineDue(old(posture), t) && t.insertOk;
        commands == old(commands) + if enqueued then [old(reports)] else []
      ensures var now := QuarantineDue(old(posture), t) && t.insertOk && t.connected;
        dispatched == old(dispatched) + (if now then [old(reports)] else [])
        && sent == old(sent) + if now && t.markOk then [old(reports)] else []
      ensures reports == old(reports) + 1
    {
      StepMeans(posture, t);
      var n := reports;
      reports := reports + 1;
      var prev := if t.readOk then Some(posture.status) else None;
      var decided, status, reason := Judge(prev, t);
      if !decided { return true; }
      if !t.writeOk {
        return false;
      }
      posture := posture.(status := status, reason := Capped(TrimSpace(reason)));
      if t.auto && status == NonCompliant && prev != Some(NonCompliant) && t.certSerial != "" {
        if t.insertOk {
          commands := commands + [n];
          if t.flagOk {
            posture := posture.(quarantined := true);
          }
          if t.connected {
            dispatched := dispatched + [n];
            if t.markOk { sent := sent + [n]; }
          }
        }
      }
      return true;
    }
  }

  // ----- runs -----

  /** The posture before the n-th report. */
  function Before(p: Posture, ts: seq<Telemetry>, n: nat): Posture
    requires n <= |ts|
  {
    if n == 0 then p else Step(Before(p, ts, n - 1), ts[n - 1]).0
  }

  function EffectAt(p: Posture, ts: seq<Telemetry>, n: nat): Effect
    requires n < |ts|
  {
    Step(Before(p, ts, n), ts[n]).1
  }

  /** The n-th report stores no status but non-compliance. */
  predicate StoresNoOther(p: Posture, ts: seq<Telemetry>, n: nat)
    requires n < |ts|
  {
    EffectAt(p, ts, n).recorded in {None, Some(NonCompliant)}
  }

  lemma {:induction false} StepStores(p: Posture, t: Telemetry)
    ensures var (q, e) := Step(p, t);
            && (e.recorded.None? ==> q == p && !e.commanded)
            && (e.recorded.Some? ==> q.status == e.recorded.value)
            && (e.commanded ==> e.recorded == Some(NonCompliant) && (t.readOk ==> p.status != NonCompliant))
  {
  }

  /** Unless some report in between stored another status, the status stays non-compliant. */
  lemma {:induction false} StaysNonCompliant(p: Posture, ts: seq<Telemetry>, i: nat, j: nat)
    requires i <= j <= |ts| && Before(p, ts, i).status == NonCompliant
    requires forall k | i <= k < j :: StoresNoOther(p, ts, k)
    ensures Before(p, ts, j).status == NonCompliant
    decreases j - i
  {
    if i < j {
      KeepsNext(p, ts, i);
      StaysNonCompliant(p, ts, i + 1, j);
    }
  }

  lemma {:induction false} KeepsNext(p: Posture, ts: seq<Telemetry>, n: nat)
    requires n < |ts| && Before(p, ts, n).status == NonCompliant && StoresNoOther(p, ts, n)
    ensures Before(p, ts, n + 1).status == NonCompliant
  {
    var before, t := Before(p, ts, n), ts[n];
    KeepsNonCompliant(before, t);
  }

  lemma {:induction false} KeepsNonCompliant(p: Posture, t: Telemetry)
    requires p.status == NonCompliant && Step(p, t).1.recorded in {None, Some(NonCompliant)}
    ensures Step(p, t).0.status == NonCompliant
  {
  }

  lemma {:induction false} StoredIsNext(p: Posture, ts: seq<Telemetry>, i: nat, stored: Status)
    requires i < |ts| && EffectAt(p, ts, i).recorded == Some(stored)
    ensures Before(p, ts, i + 1).status == stored
  {
    var before, t := Before(p, ts, i), ts[i];
    StepStores(before, t);
  }

  lemma {:induction false} StillNonCompliant(p: Posture, ts: seq<Telemetry>, i: nat, j: nat)
    requires i < j <= |ts| && EffectAt(p, ts, i).recorded == Some(NonCompliant)
    requires forall k | i < k < j :: StoresNoOther(p, ts, k)
    ensures Before(p, ts, j).status == NonCompliant
  {
    StoredIsNext(p, ts, i, NonCompliant);
    StaysNonCompliant(p, ts, i + 1, j);
  }

  /** Quarantine is edge-triggered: if the stored status can be read at the later one of two quarantine commands,
      some report between them stored a status other than non-compliant. */
  lemma {:induction false} EdgeTriggered(p: Posture, ts: seq<Telemetry>, i: nat, j: nat)
    requires i < j < |ts| && EffectAt(p, ts, i).commanded && EffectAt(p, ts, j).commanded
    requires ts[j].readOk
    ensures exists k | i < k < j :: EffectAt(p, ts, k).recorded.Some? && EffectAt(p, ts, k).recorded.value != NonCompliant
  {
    CommandRecords(p, ts, i);
    if forall k | i < k < j :: StoresNoOther(p, ts, k) {
      MissedCommandStaysMissed(p, ts, i, j);
    }
  }

  lemma {:induction false} CommandRecords(p: Posture, ts: seq<Telemetry>, i: nat)
    requires i < |ts| && EffectAt(p, ts, i).commanded
    ensures EffectAt(p, ts, i).recorded == Some(NonCompliant)
  {
    StepStores(Before(p, ts, i), ts[i]);
  }

  /** A report that, on its own, calls for a quarantine command: it finds the device non-compliant, quarantine is
      automatic, the device has a certificate, and both writes succeed. */
  predicate CallsForCommand(t: Telemetry) {
    && t.enforcement.Some?
    && ToLower(TrimSpace(t.enforcement.value.state)) in ["error", "failed"]
    && (t.enforcement.value.criticalFailed || HasCritical(t))
    && t.auto && t.certSerial != "" && t.writeOk && t.insertOk
  }

  /** A command is enqueued exactly if the report calls for one and the device was not read to be non-compliant. */
  lemma {:induction false} CommandedIff(p: Posture, t: Telemetry)
    ensures Step(p, t).1.commanded <==> CallsForCommand(t) && (t.readOk ==> p.status != NonCompliant)
  {
  }

  /** After a quarantine command, while nothing but non-compliance is stored, a report commands again exactly if it calls
      for a command and the stored status could not be read. */
  lemma {:induction false} SecondCommandIff(p: Posture, ts: seq<Telemetry>, i: nat, j: nat)
    requires i < j < |ts| && EffectAt(p, ts, i).commanded
    requires forall k | i < k < j :: StoresNoOther(p, ts, k)
    ensures EffectAt(p, ts, j).commanded <==> CallsForCommand(ts[j]) && !ts[j].readOk
  {
    CommandRecords(p, ts, i);
    StillNonCompliant(p, ts, i, j);
    CommandedIff(Before(p, ts, j), ts[j]);
  }

  /** A quarantine command that could not be inserted is not made up for while the device stays non-compliant. */
  lemma {:induction false} MissedCommandStaysMissed(p: Posture, ts: seq<Telemetry>, i: nat, j: nat)
    requires i < j < |ts| && EffectAt(p, ts, i).recorded == Some(NonCompliant)
    requires forall k | i < k < j :: StoresNoOther(p, ts, k)
    requires ts[j].readOk
    ensures !EffectAt(p, ts, j).commanded
  {
    StillNonCompliant(p, ts, i, j);
    CommandedIff(Before(p, ts, j), ts[j]);
  }
}
