/** Marking profile assignments after a merge. */
module Assignments {
  import opened Text
  import opened Json
  import opened Paths
  import opened Effective
  import opened Conflicts
  import opened PolicyMerge
  import MapHeap

  datatype Target = Device(asset: nat) | PrincipalGroup(group: nat)

  datatype State = StateOk | StateConflict

  datatype Assignment = Assignment(profile: nat, target: Target, state: State)

  /** SQL lower(trim(...)): only spaces are trimmed. */
  function TrimBlanks(s: string): string {
    if s != [] && s[0] == ' ' then TrimBlanks(s[1..])
    else if s != [] && s[|s| - 1] == ' ' then TrimBlanks(s[..|s| - 1])
    else s
  }

  function PlatformKey(s: string): string { ToLower(TrimBlanks(s)) }

  predicate Blanks(s: string) { forall i | 0 <= i < |s| :: s[i] == ' ' }

  /** m is what is left of s without the blanks around it. */
  predicate IsCore(s: string, a: string, m: string, b: string) {
    s == a + m + b && Blanks(a) && Blanks(b) && (m != [] ==> m[0] != ' ' && m[|m| - 1] != ' ')
  }

  /** The same platform, but for blanks around the name and for capitals. */
  ghost predicate SamePlatform(x: string, y: string) {
    exists m: string, n: string :: CoreOf(x, m) && CoreOf(y, n) && ToLower(m) == ToLower(n)
  }

  ghost predicate CoreOf(s: string, m: string) { exists a: string, b: string :: IsCore(s, a, m, b) }

  lemma {:induction false} CoreIsTrimmed(s: string, a: string, m: string, b: string)
    requires IsCore(s, a, m, b)
    ensures TrimBlanks(s) == m
    decreases |a| + |b|
  {
    if a != [] {
      assert s[1..] == a[1..] + m + b;
      CoreIsTrimmed(s[1..], a[1..], m, b);
    } else if b != [] {
      assert s[..|s| - 1] == a + m + b[..|b| - 1];
      CoreIsTrimmed(s[..|s| - 1], a, m, b[..|b| - 1]);
      if m == [] { OnlyBlanks(s); }
    }
  }

  lemma {:induction false} OnlyBlanks(s: string)
    requires Blanks(s)
    ensures TrimBlanks(s) == []
  {
    if s != [] { OnlyBlanks(s[1..]); }
  }

  lemma {:induction false} TrimmedIsCore(s: string) returns (a: string, b: string)
    ensures IsCore(s, a, TrimBlanks(s), b)
    decreases |s|
  {
    a, b := [], [];
    if s != [] && s[0] == ' ' {
      a, b := TrimmedIsCore(s[1..]);
      a := [' '] + a;
    } else if s != [] && s[|s| - 1] == ' ' {
      a, b := TrimmedIsCore(s[..|s| - 1]);
      b := b + [' '];
    }
  }

  lemma {:induction false} SamePlatformIff(x: string, y: string)
    ensures SamePlatform(x, y) <==> PlatformKey(x) == PlatformKey(y)
  {
    var a1, b1 := TrimmedIsCore(x);
    var a2, b2 := TrimmedIsCore(y);
    assert CoreOf(x, TrimBlanks(x)) && CoreOf(y, TrimBlanks(y));
    if SamePlatform(x, y) {
      var m: string, n: string :| CoreOf(x, m) && CoreOf(y, n) && ToLower(m) == ToLower(n);
      var a: string, b: string :| IsCore(x, a, m, b);
      var c: string, d: string :| IsCore(y, c, n, d);
      CoreIsTrimmed(x, a, m, b);
      CoreIsTrimmed(y, c, n, d);
    }
  }

  /** Which statement of the transaction fails, if any. */
  datatype Fault = NoFault | ResetFails | FlagFails | CommitFails

  datatype Computed = Merged(result: MergeResult) | QueryFailed | Undecodable(profile: nat) | MarkingFailed

  class Table {
    /** profile_assignments by row id */
    var rows: map<nat, Assignment>
    /** configuration_profiles.platform by profile id */
    const platforms: map<nat, string>
    /** principal_group_devices: (group, device) pairs */
    const members: set<(nat, nat)>

    constructor (rows: map<nat, Assignment>, platforms: map<nat, string>, members: set<(nat, nat)>)
      ensures this.rows == rows && this.platforms == platforms && this.members == members
    {
      this.rows := rows;
      this.platforms := platforms;
      this.members := members;
    }

    /** The assignments of profiles for this platform to this device, directly or through a group. */
    predicate InScope(a: Assignment, asset: nat, platform: string) {
      && a.profile in platforms && PlatformKey(platforms[a.profile]) == PlatformKey(platform)
      && match a.target
         case Device(d) => d == asset
         case PrincipalGroup(g) => (g, asset) in members
    }

    /** An assignment to this device, or to a group that it is in, of a profile for this platform. */
    ghost predicate Concerns(a: Assignment, asset: nat, platform: string) {
      && (a.target == Device(asset) || exists pair | pair in members :: a.target == PrincipalGroup(pair.0) && pair.1 == asset)
      && a.profile in platforms && SamePlatform(platforms[a.profile], platform)
    }

    lemma {:induction false} ConcernsIff(a: Assignment, asset: nat, platform: string)
      ensures Concerns(a, asset, platform) <==> InScope(a, asset, platform)
    {
      if a.profile in platforms { SamePlatformIff(platforms[a.profile], platform); }
      if a.target.PrincipalGroup? && (a.target.group, asset) in members {
        var pair := (a.target.group, asset);
        assert pair in members && a.target == PrincipalGroup(pair.0);
      }
    }

    /** ReconcileProfileAssignmentStates, one transaction: reset what is in scope, then mark the conflicting. A statement
        that fails, or the commit, takes everything back. */
    method Reconcile(asset: nat, platform: string, conflicting: set<nat>, fault: Fault) returns (ok: bool)
      modifies this`rows
      ensures ok <==> fault == NoFault || (fault == FlagFails && conflicting == {})
      ensures !ok ==> rows == old(rows)
      ensures ok ==> rows.Keys == old(rows).Keys
      ensures ok ==> forall id | id in rows ::
        var before := old(rows)[id];
        && (!Concerns(before, asset, platform) ==> rows[id] == before)
        && (Concerns(before, asset, platform) ==>
              rows[id] == Assignment(before.profile, before.target,
                                     if before.profile in conflicting then StateConflict else StateOk))
    {
      forall id | id in rows { ConcernsIff(rows[id], asset, platform); }
      var begun := rows;
      if fault == ResetFails { return false; }
      rows := map id | id in rows ::
        if InScope(rows[id], asset, platform) then rows[id].(state := StateOk) else rows[id];
      if conflicting != {} {
        if fault == FlagFails {
          rows := begun;
          return false;
        }
        rows := map id | id in rows ::
          if InScope(rows[id], asset, platform) && rows[id].profile in conflicting
          then rows[id].(state := StateConflict) else rows[id];
      }
      if fault == CommitFails {
        rows := begun;
        return false;
      }
      ok := true;
    }

    /** computeMergedEffectivePolicy: merge, then reconcile with the conflicting profiles. An assignment in scope
        ends up marked exactly if its profile contributes to a path whose contributions conflict. `loaded` is what the
        query returns, None if it fails. Whatever fails, nothing is marked and no result is returned. */
    method ComputeMergedEffectivePolicy(loaded: Option<seq<AssignedPayload>>, asset: nat, platform: string, fault: Fault)
      returns (r: Computed, ghost ps: seq<Profile>)
      modifies this`rows
      ensures !r.Merged? ==> rows == old(rows)
      ensures loaded.None? <==> r == QueryFailed
      ensures loaded.Some? ==> (r.Undecodable? <==> exists p | p in loaded.value :: Unreadable(p))
      ensures r.Undecodable? ==>
        loaded.Some? && ErrorNames(loaded.value, r.profile)
      ensures loaded.Some? && !r.Undecodable? ==> r.Merged? || r == MarkingFailed
      ensures r == MarkingFailed ==> fault != NoFault
      ensures r.Merged? ==>
        var es := Entries(ps);
        && ProfilesOf(loaded.value, ps)
        && rows.Keys == old(rows).Keys && ReportedBy(es, SortedKeys(PathsOf(es)), r.result)
        && forall id | id in rows ::
             var before := old(rows)[id];
             if !Concerns(before, asset, platform) then rows[id] == before
             else
               && rows[id] == before.(state := rows[id].state)
               && (rows[id].state == StateConflict <==>
                     exists p | p in PathsOf(es) :: Flagged(es, p) && Contributes(es, before.profile, p))
    {
      ps := [];
      if loaded.None? { return QueryFailed, []; }
      var merged, root;
      merged, root, ps := MergeAssignedPayloads(loaded.value);
      if merged.Err? { return Undecodable(merged.profile), []; }
      ghost var es := Entries(ps);
      assert forall p :: p in SortedKeys(PathsOf(es)) <==> p in PathsOf(es);
      var ok := Reconcile(asset, platform, merged.value.conflictProfiles, fault);
      r := if ok then Merged(merged.value) else MarkingFailed;
    }
  }
}
