/** Incidents that alerts open and resolve. */
module Incidents {
  import opened Alerts

  datatype IncidentState = New | InProgress | OnHold | Resolved | Closed

  datatype Note = AlertOpen | AlertRepeat | AlertRecovery

  datatype Incident = Incident(
    fp: Fingerprint,
    device: nat,
    state: IncidentState,
    title: string,
    impact: nat,
    urgency: nat,
    slaDue: int,
    notes: seq<Note>)

  /** incidents by number, and the sequence the numbers come from */
  datatype Log = Log(rows: map<nat, Incident>, last: nat)

  /** The unique index on source_alert_fingerprint, and numbers not used ahead of the sequence. */
  predicate Consistent(l: Log) {
    && (forall i, j | i in l.rows && j in l.rows && l.rows[i].fp == l.rows[j].fp :: i == j)
    && (forall i | i in l.rows :: i <= l.last)
  }

  predicate Active(i: Incident) { i.state == New || i.state == InProgress || i.state == OnHold }

  /** The numbers of the active incidents of a fingerprint. */
  function ActiveFor(l: Log, fp: Fingerprint): set<nat> {
    set i | i in l.rows && l.rows[i].fp == fp && Active(l.rows[i])
  }

  predicate Known(l: Log, fp: Fingerprint) { exists i | i in l.rows :: l.rows[i].fp == fp }

  function ImpactOf(s: Severity): nat { if s == Critical then 1 else 2 }

  function UrgencyOf(s: Severity): nat { if s == Info then 2 else 1 }

  function SlaHours(s: Severity): int {
    match s case Critical => 4 case Warning => 24 case Info => 72
  }

  function Repeated(i: Incident, title: string, s: Severity, now: int): Incident {
    i.(slaDue := now + SlaHours(s) * HOUR, title := title, impact := ImpactOf(s), urgency := UrgencyOf(s),
       state := if i.state == Resolved || i.state == Closed then InProgress else i.state,
       notes := i.notes + [AlertRepeat])
  }

  /** The constraint on incident_number, INC and seven digits, refuses larger numbers. */
  const MAX_NUMBER := 9_999_999

  /** UpsertIncidentForCriticalFingerprint; a number that was drawn stays drawn even if the insert is refused. */
  function Opened(l: Log, fp: Fingerprint, title: string, s: Severity, now: int): Log {
    if fp.device == 0 then l
    else if Known(l, fp) then
      Log(map i | i in l.rows :: if l.rows[i].fp == fp then Repeated(l.rows[i], title, s, now) else l.rows[i], l.last)
    else if l.last >= MAX_NUMBER then l.(last := l.last + 1)
    else
      Log(l.rows[l.last + 1 := Incident(fp, fp.device, New, title, ImpactOf(s), UrgencyOf(s),
                                        now + SlaHours(s) * HOUR, [AlertOpen])], l.last + 1)
  }

  function Recovered(i: Incident): Incident {
    if i.state == Closed then i
    else i.(state := if Active(i) then Resolved else i.state, notes := i.notes + [AlertRecovery])
  }

  /** AutoResolveIncidentsForAlertFingerprints */
  function AutoResolved(l: Log, fps: set<Fingerprint>): Log {
    Log(map i | i in l.rows :: if l.rows[i].fp in fps then Recovered(l.rows[i]) else l.rows[i], l.last)
  }

  /** After opening, the fingerprint has exactly one active incident, unless it had no row and the numbers are used up,
      when it has none; everything else is as it was. */
  lemma {:induction false} OpeningActivates(l: Log, fp: Fingerprint, title: string, s: Severity, now: int)
    requires Consistent(l) && fp.device != 0
    ensures var l' := Opened(l, fp, title, s, now);
            && Consistent(l') && |ActiveFor(l', fp)| == (if Known(l, fp) || l.last < MAX_NUMBER then 1 else 0)
            && forall other | other != fp :: ActiveFor(l', other) == ActiveFor(l, other)
  {
    if Known(l, fp) { RefreshActivates(l, fp, title, s, now); } else { InsertActivates(l, fp, title, s, now); }
  }

  lemma {:induction false} RefreshActivates(l: Log, fp: Fingerprint, title: string, s: Severity, now: int)
    requires Consistent(l) && fp.device != 0 && Known(l, fp)
    ensures var l' := Opened(l, fp, title, s, now);
            && Consistent(l') && |ActiveFor(l', fp)| == 1
            && forall other | other != fp :: ActiveFor(l', other) == ActiveFor(l, other)
  {
    var i :| i in l.rows && l.rows[i].fp == fp;
    assert ActiveFor(Opened(l, fp, title, s, now), fp) == {i};
  }

  lemma {:induction false} InsertActivates(l: Log, fp: Fingerprint, title: string, s: Severity, now: int)
    requires Consistent(l) && fp.device != 0 && !Known(l, fp)
    ensures var l' := Opened(l, fp, title, s, now);
            && Consistent(l') && |ActiveFor(l', fp)| == (if l.last < MAX_NUMBER then 1 else 0)
            && forall other | other != fp :: ActiveFor(l', other) == ActiveFor(l, other)
  {
    var l' := Opened(l, fp, title, s, now);
    assert ActiveFor(l', fp) == if l.last < MAX_NUMBER then {l.last + 1} else {};
  }

  /** After recovery, the fingerprints have no active incident; everything else is as it was. */
  lemma {:induction false} RecoveryDeactivates(l: Log, fps: set<Fingerprint>)
    requires Consistent(l)
    ensures var l' := AutoResolved(l, fps);
            && Consistent(l')
            && forall fp :: ActiveFor(l', fp) == if fp in fps then {} else ActiveFor(l, fp)
  {
  }

  /** A known fingerprint has one row, and that is the one refreshed. */
  lemma {:induction false} KnownIncident(l: Log, fp: Fingerprint, title: string, s: Severity, now: int, i: nat)
    requires Consistent(l) && fp.device != 0 && i in l.rows && l.rows[i].fp == fp
    ensures Opened(l, fp, title, s, now) == l.(rows := l.rows[i := Repeated(l.rows[i], title, s, now)])
  {
    assert Known(l, fp);
    assert Opened(l, fp, title, s, now).rows == l.rows[i := Repeated(l.rows[i], title, s, now)];
  }

  /** The UPDATE for one fingerprint. */
  function RecoveredOne(l: Log, fp: Fingerprint): Log {
    l.(rows := map i | i in l.rows :: if l.rows[i].fp == fp then Recovered(l.rows[i]) else l.rows[i])
  }

  lemma {:induction false} OneMoreRecovered(l: Log, seen: set<Fingerprint>, fp: Fingerprint)
    requires fp !in seen
    ensures RecoveredOne(AutoResolved(l, seen), fp) == AutoResolved(l, seen + {fp})
  {
    assert RecoveredOne(AutoResolved(l, seen), fp).rows == AutoResolved(l, seen + {fp}).rows;
  }

  /** Ratings by severity: due in 4 hours, impact 1 and urgency 1 if critical; in 24, 2 and 1 for a warning; else in 72, 2
      and 2. */
  predicate RatedBy(i: Incident, s: Severity, now: int) {
    && (s == Critical ==> i.slaDue == now + 14400 && i.impact == 1 && i.urgency == 1)
    && (s == Warning ==> i.slaDue == now + 86400 && i.impact == 2 && i.urgency == 1)
    && (s == Info ==> i.slaDue == now + 259200 && i.impact == 2 && i.urgency == 2)
  }

  /** A new row of the fingerprint, numbered next. */
  predicate IsInserted(l: Log, fp: Fingerprint, title: string, s: Severity, now: int, m: Log) {
    && m.last == l.last + 1 && m.rows.Keys == l.rows.Keys + {m.last}
    && (forall i | i in l.rows && i != m.last :: m.rows[i] == l.rows[i])
    && var row := m.rows[m.last];
       row.fp == fp && row.device == fp.device && row.state == New && row.title == title && row.notes == [AlertOpen]
       && RatedBy(row, s, now)
  }

  /** The row of the fingerprint, rated anew, with a note; a resolved or closed one is in progress again. */
  predicate IsRefreshed(l: Log, fp: Fingerprint, title: string, s: Severity, now: int, m: Log) {
    && m.last == l.last && m.rows.Keys == l.rows.Keys
    && forall i | i in l.rows ::
         if l.rows[i].fp != fp then m.rows[i] == l.rows[i]
         else
           && m.rows[i].fp == fp && m.rows[i].device == l.rows[i].device && m.rows[i].title == title
           && m.rows[i].notes == l.rows[i].notes + [AlertRepeat] && RatedBy(m.rows[i], s, now)
           && m.rows[i].state == if l.rows[i].state == Resolved || l.rows[i].state == Closed then InProgress
                                 else l.rows[i].state
  }

  lemma {:induction false} OpenedMeans(l: Log, fp: Fingerprint, title: string, s: Severity, now: int)
    requires Consistent(l) && fp.device != 0
    ensures Known(l, fp) ==> IsRefreshed(l, fp, title, s, now, Opened(l, fp, title, s, now))
    ensures !Known(l, fp) && l.last < 9_999_999 ==> IsInserted(l, fp, title, s, now, Opened(l, fp, title, s, now))
  {
  }

  /** The rows of these fingerprints with a note, and resolved if they were active; closed ones stay as they are. */
  predicate IsRecovered(l: Log, fps: seq<Fingerprint>, m: Log) {
    && m.last == l.last && m.rows.Keys == l.rows.Keys
    && forall i | i in l.rows ::
         var row := l.rows[i];
         m.rows[i] == if row.fp !in fps || row.state == Closed then row
                      else row.(notes := row.notes + [AlertRecovery],
                                state := if row.state == New || row.state == InProgress || row.state == OnHold then Resolved
                                         else row.state)
  }

  lemma {:induction false} RecoveredMeans(l: Log, fps: seq<Fingerprint>)
    ensures IsRecovered(l, fps, AutoResolved(l, set fp | fp in fps))
  {
  }

  /** The part of the list that is handled before statements fail. */
  function Reached(fingerprints: seq<Fingerprint>, until: nat): seq<Fingerprint> {
    if until < |fingerprints| then fingerprints[..until] else fingerprints
  }

  /** How far the upsert gets: it succeeds, fails before it changed anything, or fails in its last statements. */
  datatype Fault = NoFault | FailsAtOnce | FailsLate

  predicate DrawsInVain(l: Log, fp: Fingerprint, fault: Fault) { fault == FailsLate && fp.device != 0 && !Known(l, fp) }

  /** A number was drawn from the sequence. */
  function Drawn(l: Log): Log { l.(last := l.last + 1) }

  class IncidentStore {
    var log: Log

    constructor ()
      ensures log == Log(map[], 0) && Consistent(log)
    {
      log := Log(map[], 0);
    }

    /** UpsertIncidentForCriticalFingerprint: one transaction, which draws a number from the sequence for a new row. If it
        fails it is taken back, but a number that was drawn is gone. */
    method UpsertIncident(fp: Fingerprint, title: string, s: Severity, now: int, fault: Fault) returns (ok: bool)
      requires Consistent(log)
      modifies this
      ensures ok == (fault == NoFault && fp.device != 0 && (Known(old(log), fp) || old(log).last < MAX_NUMBER))
      ensures ok ==> IsRefreshed(old(log), fp, title, s, now, log) || IsInserted(old(log), fp, title, s, now, log)
      ensures ok ==> (IsInserted(old(log), fp, title, s, now, log) <==> !Known(old(log), fp))
      ensures fault == NoFault && !ok && fp.device != 0 ==> old(log).last >= 9_999_999 && log == Drawn(old(log))
      ensures fault == NoFault ==> log == Opened(old(log), fp, title, s, now)
      ensures fault != NoFault ==> log == if DrawsInVain(old(log), fp, fault) then Drawn(old(log)) else old(log)
      ensures Consistent(log)
    {
      if fp.device == 0 || fault == FailsAtOnce { return false; }
      OpeningActivates(log, fp, title, s, now);
      OpenedMeans(log, fp, title, s, now);
      var found := set i | i in log.rows && log.rows[i].fp == fp;
      if found == {} {
        assert forall i | i in log.rows && log.rows[i].fp == fp :: i in found;
        ok := InsertIncident(fp, title, s, now, fault);
      } else {
        var i :| i in found;
        if fault == FailsLate { return false; }
        KnownIncident(log, fp, title, s, now, i);
        RefreshIncident(i, title, s, now);
        ok := true;
      }
    }

    /** The INSERT, after a number is drawn. */
    method InsertIncident(fp: Fingerprint, title: string, s: Severity, now: int, fault: Fault) returns (ok: bool)
      requires !Known(log, fp) && fp.device != 0
      modifies this
      ensures ok == (fault == NoFault && old(log).last < MAX_NUMBER)
      ensures log == if fault == NoFault then Opened(old(log), fp, title, s, now) else Drawn(old(log))
    {
      var impact, urgency, due := Ratings(s, now);
      var number := log.last + 1;
      if number > MAX_NUMBER || fault != NoFault {
        log := log.(last := number);
        return false;
      }
      log := Log(log.rows[number := Incident(fp, fp.device, New, title, impact, urgency, due, [AlertOpen])], number);
      ok := true;
    }

    /** The UPDATE of a row that is there. */
    method RefreshIncident(i: nat, title: string, s: Severity, now: int)
      requires i in log.rows
      modifies this
      ensures log == old(log).(rows := old(log).rows[i := Repeated(old(log).rows[i], title, s, now)])
    {
      var impact, urgency, due := Ratings(s, now);
      var row := log.rows[i];
      var state := if row.state == Resolved || row.state == Closed then InProgress else row.state;
      log := log.(rows := log.rows[i := row.(slaDue := due, title := title, impact := impact, urgency := urgency,
                                             state := state, notes := row.notes + [AlertRepeat])]);
    }

    static method Ratings(s: Severity, now: int) returns (impact: nat, urgency: nat, due: int)
      ensures impact == ImpactOf(s) && urgency == UrgencyOf(s) && due == now + SlaHours(s) * HOUR
    {
      impact, urgency := 2, 2;
      if s == Critical { impact, urgency := 1, 1; }
      if s == Warning { impact, urgency := 2, 1; }
      var sla := 72;
      if s == Critical { sla := 4; }
      if s == Warning { sla := 24; }
      due := now + sla * HOUR;
    }

    method RecoverOne(fp: Fingerprint)
      modifies this
      ensures log == RecoveredOne(old(log), fp)
    {
      ghost var before := log;
      log := log.(rows := map i | i in log.rows ::
        if log.rows[i].fp == fp && log.rows[i].state != Closed
        then log.rows[i].(notes := log.rows[i].notes + [AlertRecovery],
                          state := if Active(log.rows[i]) then Resolved else log.rows[i].state)
        else log.rows[i]);
      assert log.rows == RecoveredOne(before, fp).rows;
    }

    /** AutoResolveIncidentsForAlertFingerprints: a list that may repeat fingerprints; each is handled once. From place
        `until` on statements fail, as they do once the context is cancelled, and the first that fails ends it. */
    method AutoResolve(fingerprints: seq<Fingerprint>, until: nat) returns (ok: bool)
      requires Consistent(log)
      modifies this
      ensures log == AutoResolved(old(log), set fp | fp in Reached(fingerprints, until)) && Consistent(log)
      ensures IsRecovered(old(log), Reached(fingerprints, until), log)
      ensures ok <==> forall fp | fp in fingerprints :: fp in Reached(fingerprints, until)
    {
      RecoveredMeans(log, Reached(fingerprints, until));
      ok := ResolveEach(fingerprints, until);
    }

    /** Its loop. */
    method ResolveEach(fingerprints: seq<Fingerprint>, until: nat) returns (ok: bool)
      requires Consistent(log)
      modifies this
      ensures log == AutoResolved(old(log), set fp | fp in Reached(fingerprints, until)) && Consistent(log)
      ensures ok <==> forall fp | fp in fingerprints :: fp in Reached(fingerprints, until)
    {
      ghost var before := log;
      var seen: set<Fingerprint> := {};
      for n := 0 to |fingerprints|
        invariant seen == set fp | fp in fingerprints[..n]
        invariant log == AutoResolved(before, seen)
        invariant until <= n ==> forall x | x in fingerprints[..n] :: x in Reached(fingerprints, until)
      {
        var fp := fingerprints[n];
        assert fingerprints[..n + 1] == fingerprints[..n] + [fp];
        if fp !in seen {
          if n >= until {
            assert forall x :: x in fingerprints[..n] <==> x in Reached(fingerprints, until);
            assert fp in fingerprints;
            RecoveryDeactivates(before, seen);
            return false;
          }
          OneMoreRecovered(before, seen, fp);
          seen := seen + {fp};
          RecoverOne(fp);
        }
      }
      assert fingerprints[..|fingerprints|] == fingerprints;
      assert forall x :: x in fingerprints <==> x in Reached(fingerprints, until);
      RecoveryDeactivates(before, seen);
      ok := true;
    }
  }
}
