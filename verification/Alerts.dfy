/** Alert rows, one per fingerprint, and the transactions that open, refresh and resolve them. */
module Alerts {
  import opened Json

  /** "builtin-offline:<device>", "rule-offline:<rule>:<device>" and "rule-metric:<rule>:<device>"; UUIDs are
      numbers here and 0 is the nil UUID. */
  datatype Fingerprint =
    | BuiltinOffline(device: nat)
    | RuleOffline(rule: nat, device: nat)
    | RuleMetric(rule: nat, device: nat)

  datatype AlertKind = KindBuiltinOffline | KindRuleOffline | KindRuleMetric

  function KindOfAlert(fp: Fingerprint): AlertKind {
    match fp
    case BuiltinOffline(_) => KindBuiltinOffline
    case RuleOffline(_, _) => KindRuleOffline
    case RuleMetric(_, _) => KindRuleMetric
  }

  function RuleOf(fp: Fingerprint): Option<nat> {
    match fp
    case BuiltinOffline(_) => None
    case RuleOffline(r, _) => Some(r)
    case RuleMetric(r, _) => Some(r)
  }

  datatype Severity = Info | Warning | Critical

  datatype Alert = Alert(
    kind: AlertKind,
    device: Option<nat>,
    rule: Option<nat>,
    severity: Severity,
    title: string,
    triggeredAt: int,
    lastNotifiedAt: Option<int>,
    resolvedAt: Option<int>)

  type Table = map<Fingerprint, Alert>

  predicate IsOpen(t: Table, fp: Fingerprint) { fp in t && t[fp].resolvedAt.None? }

  function OpenOf(t: Table, kind: AlertKind): set<Fingerprint> {
    set fp | fp in t && t[fp].resolvedAt.None? && t[fp].kind == kind
  }

  /** What one evaluation of a breaching condition passes on. Times are in seconds. */
  datatype Breach = Breach(fp: Fingerprint, severity: Severity, title: string, cooldown: int)

  const HOUR := 3600

  function Cooldown(b: Breach): int { if b.cooldown <= 0 then HOUR else b.cooldown }

  /** The cadence rule: a new or reopened alert notifies, an open one again after the cooldown. */
  predicate ShouldNotify(t: Table, b: Breach, now: int) {
    if !IsOpen(t, b.fp) then true
    else t[b.fp].lastNotifiedAt.None? || now - t[b.fp].lastNotifiedAt.value >= Cooldown(b)
  }

  function Upserted(t: Table, b: Breach, now: int): Alert {
    var device, rule, kind := Some(b.fp.device), RuleOf(b.fp), KindOfAlert(b.fp);
    if b.fp !in t then Alert(kind, device, rule, b.severity, b.title, now, Some(now), None)
    else
      var a := t[b.fp];
      if a.resolvedAt.Some? then Alert(kind, device, rule, b.severity, b.title, now, Some(now), None)
      else a.(rule := if rule.Some? then rule else a.rule, device := device, severity := b.severity,
              title := b.title, lastNotifiedAt := if ShouldNotify(t, b, now) then Some(now) else a.lastNotifiedAt)
  }

  /** The table after a breach was written: its alert is open and says what the breach says; it was triggered now, unless
      it was open before, and notified now, if it was; a rule that is not given stays only for an open alert. Nothing else
      changed. */
  predicate IsWritten(t: Table, b: Breach, now: int, notified: bool, u: Table) {
    && u.Keys == t.Keys + {b.fp} && (forall fp | fp in t && fp != b.fp :: u[fp] == t[fp])
    && var a := u[b.fp];
       && a.resolvedAt == None && a.severity == b.severity && a.title == b.title && a.device == Some(b.fp.device)
       && (notified ==> a.lastNotifiedAt == Some(now))
       && (if b.fp in t && t[b.fp].resolvedAt.None?
           then a.triggeredAt == t[b.fp].triggeredAt && a.kind == t[b.fp].kind
                && (!notified ==> a.lastNotifiedAt == t[b.fp].lastNotifiedAt)
                && a.rule == (if b.fp.BuiltinOffline? then t[b.fp].rule else Some(b.fp.rule))
           else a.triggeredAt == now && a.rule == (if b.fp.BuiltinOffline? then None else Some(b.fp.rule))
                && (a.kind.KindBuiltinOffline? <==> b.fp.BuiltinOffline?)
                && (a.kind.KindRuleOffline? <==> b.fp.RuleOffline?))
  }

  function Upsert(t: Table, b: Breach, now: int): Table { t[b.fp := Upserted(t, b, now)] }

  function Resolve(t: Table, which: set<Fingerprint>, now: int): Table {
    map fp | fp in t :: if fp in which then t[fp].(resolvedAt := Some(now)) else t[fp]
  }

  /** The open offline alerts of a device, which its heartbeat resolves. */
  function OfflineAlertsOf(t: Table, device: nat): set<Fingerprint> {
    set fp | fp in t && t[fp].resolvedAt.None? && t[fp].device == Some(device)
          && (t[fp].kind == KindBuiltinOffline || t[fp].kind == KindRuleOffline)
  }

  class AlertStore {
    var rows: Table

    constructor ()
      ensures rows == map[]
    {
      rows := map[];
    }

    /** UpsertUnresolvedAlert: one transaction. A new or reopened alert notifies; an open one does if its last notification
        is at least the cooldown ago, an hour if none is given. */
    method UpsertUnresolvedAlert(b: Breach, now: int) returns (shouldNotify: bool)
      modifies this
      ensures shouldNotify <==>
        || b.fp !in old(rows)
        || old(rows)[b.fp].resolvedAt.Some?
        || old(rows)[b.fp].lastNotifiedAt.None?
        || now - old(rows)[b.fp].lastNotifiedAt.value >= (if b.cooldown > 0 then b.cooldown else 3600)
      ensures IsWritten(old(rows), b, now, shouldNotify, rows)
      ensures rows == Upsert(old(rows), b, now) && shouldNotify == ShouldNotify(old(rows), b, now)
    {
      var cooldown := b.cooldown;
      if cooldown <= 0 { cooldown := HOUR; }
      var fp, device, rule, kind := b.fp, Some(b.fp.device), RuleOf(b.fp), KindOfAlert(b.fp);
      if fp !in rows {
        rows := rows[fp := Alert(kind, device, rule, b.severity, b.title, now, Some(now), None)];
        return true;
      }
      var lastNotify := rows[fp].lastNotifiedAt;
      var reopened := rows[fp].resolvedAt.Some?;
      if reopened {
        rows := rows[fp := Alert(kind, device, rule, b.severity, b.title, now, None, None)];
      } else {
        rows := rows[fp := rows[fp].(rule := if rule.Some? then rule else rows[fp].rule, device := device,
                                     severity := b.severity, title := b.title)];
      }
      shouldNotify := reopened || lastNotify.None? || now - lastNotify.value >= cooldown;
      if shouldNotify {
        rows := rows[fp := rows[fp].(lastNotifiedAt := Some(now))];
      }
    }

    /** ResolveActiveAlertsKindsForDeviceReturning: an error without a device. Otherwise no open offline alert of the device
        is left, and exactly the returned rows changed, none of them a metric alert or another device's. */
    method ResolveActiveAlertsKindsForDevice(device: nat, now: int) returns (ok: bool, resolved: set<Fingerprint>)
      modifies this
      ensures ok == (device != 0) && (!ok ==> rows == old(rows) && resolved == {})
      ensures ok ==> resolved == OfflineAlertsOf(old(rows), device) && OfflineAlertsOf(rows, device) == {}
      ensures ok ==> forall fp :: fp in resolved <==>
        fp in old(rows) && old(rows)[fp].resolvedAt.None? && old(rows)[fp].device == Some(device)
        && old(rows)[fp].kind != KindRuleMetric
      ensures rows.Keys == old(rows).Keys
      ensures forall fp | fp in resolved :: rows[fp] == old(rows)[fp].(resolvedAt := Some(now))
      ensures rows == Resolve(old(rows), resolved, now)
      ensures forall fp | fp in rows :: fp in resolved <==> rows[fp] != old(rows)[fp]
      ensures forall fp | fp in rows && (rows[fp].kind == KindRuleMetric || rows[fp].device != Some(device)) ::
        rows[fp] == old(rows)[fp]
    {
      resolved := {};
      if device == 0 {
        assert rows == Resolve(rows, {}, now);
        return false, {};
      }
      resolved := OfflineAlertsOf(rows, device);
      rows := map fp | fp in rows :: if fp in resolved then rows[fp].(resolvedAt := Some(now)) else rows[fp];
      ok := true;
    }

    /** CloseAlertsKindsExceptReturning: with nothing desired, everything of the kind is closed by a statement of
        its own; both statements close the open alerts of the kind that are not desired, and nothing else. */
    method CloseAlertsKindsExcept(kind: AlertKind, desired: set<Fingerprint>, now: int)
      returns (resolved: set<Fingerprint>)
      modifies this
      ensures resolved == OpenOf(old(rows), kind) - desired
      ensures rows == Resolve(old(rows), resolved, now)
      ensures forall fp :: fp in resolved <==>
        fp in old(rows) && old(rows)[fp].resolvedAt.None? && old(rows)[fp].kind == kind && fp !in desired
      ensures rows.Keys == old(rows).Keys
      ensures forall fp | fp in rows ::
        rows[fp] == if fp in resolved then old(rows)[fp].(resolvedAt := Some(now)) else old(rows)[fp]
    {
      if desired == {} {
        resolved := set fp | fp in rows && rows[fp].resolvedAt.None? && rows[fp].kind == kind;
      } else {
        resolved := set fp | fp in rows && rows[fp].resolvedAt.None? && rows[fp].kind == kind && fp !in desired;
      }
      rows := map fp | fp in rows :: if fp in resolved then rows[fp].(resolvedAt := Some(now)) else rows[fp];
    }
  }
}
