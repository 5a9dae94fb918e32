/** MergeAssignedPayloads: flatten every assigned profile, merge each path, rebuild one payload, report conflicts. */
module PolicyMerge {
  import opened Text
  import opened Json
  import opened Merging
  import opened Paths
  import opened Rebuild
  import opened Effective
  import opened Conflicts
  import MapHeap

  // ----- input -----

  /** A payload as stored: nothing (or the text null), text that is not JSON, or a decoded value. */
  datatype Payload = Absent | Malformed | Parsed(value: Json)

  /** id 0 is the nil UUID. */
  datatype AssignedPayload = AssignedPayload(id: nat, name: string, payload: Payload)

  datatype Result<+T> = Ok(value: T) | Err(profile: nat)

  /** json.Unmarshal into a map: only objects and null are accepted. */
  function DecodeRoot(p: AssignedPayload): Result<Profile> {
    match p.payload
    case Absent => Ok(Profile(p.id, p.name, map[]))
    case Malformed => Err(p.id)
    case Parsed(Object(m)) => Ok(Profile(p.id, p.name, m))
    case Parsed(Null) => Ok(Profile(p.id, p.name, map[]))
    case Parsed(_) => Err(p.id)
  }

  /** The decoded profiles in order, without those that have no id; the first undecodable payload fails all. */
  function Decode(inputs: seq<AssignedPayload>): Result<seq<Profile>> {
    if inputs == [] then Ok([])
    else if inputs[0].id == 0 then Decode(inputs[1..])
    else
      match DecodeRoot(inputs[0])
      case Err(e) => Err(e)
      case Ok(p) =>
        match Decode(inputs[1..])
        case Err(e) => Err(e)
        case Ok(ps) => Ok([p] + ps)
  }

  lemma {:induction false} DecodeStep(inputs: seq<AssignedPayload>, i: nat)
    requires i < |inputs| && Decode(inputs[..i]).Ok?
    ensures inputs[i].id == 0 ==> Decode(inputs[..i + 1]) == Decode(inputs[..i])
    ensures inputs[i].id != 0 && DecodeRoot(inputs[i]).Err? ==> Decode(inputs) == Err(inputs[i].id)
    ensures inputs[i].id != 0 && DecodeRoot(inputs[i]).Ok? ==>
              Decode(inputs[..i + 1]) == Ok(Decode(inputs[..i]).value + [DecodeRoot(inputs[i]).value])
    decreases i
  {
    if i == 0 {
      assert inputs[..1] == [inputs[0]] && inputs[..1][1..] == [];
      assert forall p: Profile :: [p] + [] == [p] == [] + [p];
    } else {
      var rest := inputs[1..];
      assert inputs[..i][1..] == rest[..i - 1] && inputs[..i + 1][1..] == rest[..i];
      assert inputs[..i][0] == inputs[0] == inputs[..i + 1][0];
      DecodeStep(rest, i - 1);
      if inputs[i].id != 0 && DecodeRoot(inputs[i]).Ok? && inputs[0].id != 0 {
        var p, ps, q := DecodeRoot(inputs[0]).value, Decode(rest[..i - 1]).value, DecodeRoot(inputs[i]).value;
        assert [p] + (ps + [q]) == [p] + ps + [q];
      }
    }
  }

  /** The inputs that count: those with an id, in order. */
  function WithId(inputs: seq<AssignedPayload>): seq<AssignedPayload> {
    if inputs == [] then [] else (if inputs[0].id != 0 then [inputs[0]] else []) + WithId(inputs[1..])
  }

  /** A payload that is not the text of an object, or of null. */
  predicate Unreadable(p: AssignedPayload) {
    p.id != 0 && (p.payload.Malformed? || (p.payload.Parsed? && !p.payload.value.Object? && !p.payload.value.Null?))
  }

  /** An input and its profile: the same id, and the fields of the object, if the payload is one. */
  predicate IsProfileOf(p: Profile, input: AssignedPayload) {
    && p.id == input.id && p.name == input.name
    && (input.payload.Parsed? && input.payload.value.Object? ==> p.fields == input.payload.value.fields)
    && (input.payload.Absent? || (input.payload.Parsed? && input.payload.value.Null?) ==> p.fields == map[])
  }

  predicate ProfilesOf(inputs: seq<AssignedPayload>, ps: seq<Profile>) {
    |ps| == |WithId(inputs)| && forall i | 0 <= i < |ps| :: IsProfileOf(ps[i], WithId(inputs)[i])
  }

  /** The i-th input is the first that cannot be read. */
  predicate FirstUnreadable(inputs: seq<AssignedPayload>, i: nat) {
    i < |inputs| && Unreadable(inputs[i]) && forall j | 0 <= j < i :: !Unreadable(inputs[j])
  }

  predicate ErrorNames(inputs: seq<AssignedPayload>, id: nat) {
    exists i: nat | i < |inputs| :: FirstUnreadable(inputs, i) && inputs[i].id == id
  }

  /** One input, with an id and an object whose keys are addressable. */
  predicate JustOne(inputs: seq<AssignedPayload>) {
    && |inputs| == 1 && inputs[0].id != 0
    && inputs[0].payload.Parsed? && inputs[0].payload.value.Object? && Addressable(inputs[0].payload.value)
  }

  lemma {:induction false} DecodeFailsIff(inputs: seq<AssignedPayload>)
    ensures Decode(inputs).Err? <==> exists p | p in inputs :: Unreadable(p)
  {
    if inputs != [] {
      DecodeFailsIff(inputs[1..]);
      assert inputs == [inputs[0]] + inputs[1..];
      if Unreadable(inputs[0]) { assert inputs[0] in inputs; }
    }
  }

  lemma {:induction false} FirstErrorDecides(inputs: seq<AssignedPayload>)
    requires Decode(inputs).Err?
    ensures ErrorNames(inputs, Decode(inputs).profile)
  {
    if Unreadable(inputs[0]) {
      assert FirstUnreadable(inputs, 0);
    } else {
      var rest := inputs[1..];
      FirstErrorDecides(rest);
      var i: nat :| i < |rest| && FirstUnreadable(rest, i) && rest[i].id == Decode(rest).profile;
      assert forall j | 0 < j < i + 1 :: inputs[j] == rest[j - 1];
      assert FirstUnreadable(inputs, i + 1);
    }
  }

  lemma {:induction false} DecodedAreProfiles(inputs: seq<AssignedPayload>)
    requires Decode(inputs).Ok?
    ensures ProfilesOf(inputs, Decode(inputs).value)
  {
    if inputs != [] { DecodedAreProfiles(inputs[1..]); }
  }

  // ----- the table of contributions -----

  /** The contributions to one path with their sources, in order. */
  function PartsAt(es: seq<Entry>, path: string): seq<Contribution> {
    if es == [] then []
    else (if es[0].path == path then [Contribution(es[0].source, es[0].value)] else []) + PartsAt(es[1..], path)
  }

  lemma {:induction false} PartsValues(es: seq<Entry>, path: string)
    ensures ValuesOf(PartsAt(es, path)) == Values(es, path)
  {
    if es != [] {
      PartsValues(es[1..], path);
      assert Values(es, path) == Chosen(es[0], path) + Values(es[1..], path);
    }
  }

  lemma {:induction false} PartsSnoc(es: seq<Entry>, e: Entry, path: string)
    ensures PartsAt(es + [e], path)
         == PartsAt(es, path) + if e.path == path then [Contribution(e.source, e.value)] else []
  {
    if es == [] {
      assert es + [e] == [e] && [e][1..] == [];
    } else {
      assert (es + [e])[1..] == es[1..] + [e];
      PartsSnoc(es[1..], e, path);
      var h := if es[0].path == path then [Contribution(es[0].source, es[0].value)] else [];
      var x := if e.path == path then [Contribution(e.source, e.value)] else [];
      assert h + (PartsAt(es[1..], path) + x) == h + PartsAt(es[1..], path) + x;
    }
  }

  lemma {:induction false} PartsWhere(es: seq<Entry>, path: string)
    ensures forall c :: c in PartsAt(es, path) <==>
              exists e | e in es :: e.path == path && c == Contribution(e.source, e.value)
  {
    if es != [] {
      PartsWhere(es[1..], path);
      assert es == [es[0]] + es[1..];
      forall c | c in PartsAt(es[1..], path)
        ensures exists e | e in es :: e.path == path && c == Contribution(e.source, e.value)
      {
        var e :| e in es[1..] && e.path == path && c == Contribution(e.source, e.value);
        assert e in es;
      }
      assert es[0] in es;
    }
  }

  lemma {:induction false} Associative<T>(a: seq<T>, b: seq<T>, c: seq<T>)
    ensures a + b + c == a + (b + c)
  {
  }

  lemma {:induction false} FlattenKeysSnoc(prefix: string, v: Json, ks: seq<string>, k: string, source: nat)
    requires v.Object? && k in v.fields && forall l | l in ks :: l in v.fields
    ensures FlattenKeys(prefix, v, ks + [k], source)
         == FlattenKeys(prefix, v, ks, source) + Flatten(ChildPath(prefix, k), v.fields[k], source)
    decreases |ks|
  {
    if ks == [] {
      assert ks + [k] == [k] && [k][1..] == [];
    } else {
      var l, a, b := ks[0], ks[1..], Flatten(ChildPath(prefix, k), v.fields[k], source);
      assert (ks + [k])[1..] == a + [k];
      FlattenKeysSnoc(prefix, v, a, k, source);
      var h := Flatten(ChildPath(prefix, l), v.fields[l], source);
      Associative(h, FlattenKeys(prefix, v, a, source), b);
    }
  }

  lemma {:induction false} FlattenNext(prefix: string, v: Json, keys: seq<string>, i: nat, source: nat)
    requires v.Object? && i < |keys| && forall k | k in keys :: k in v.fields
    ensures forall k | k in keys[..i + 1] :: k in v.fields
    ensures FlattenKeys(prefix, v, keys[..i + 1], source)
         == FlattenKeys(prefix, v, keys[..i], source) + Flatten(ChildPath(prefix, keys[i]), v.fields[keys[i]], source)
  {
    assert keys[..i + 1] == keys[..i] + [keys[i]];
    FlattenKeysSnoc(prefix, v, keys[..i], keys[i], source);
  }

  predicate IsTable(acc: map<string, seq<Contribution>>, es: seq<Entry>) {
    acc.Keys == PathsOf(es) && forall p | p in acc :: acc[p] == PartsAt(es, p)
  }

  class ContributionTable {
    var acc: map<string, seq<Contribution>>
    ghost var entries: seq<Entry>

    ghost predicate Valid()
      reads this
    {
      IsTable(acc, entries)
    }

    constructor ()
      ensures Valid() && entries == []
    {
      acc := map[];
      entries := [];
    }

    method Append(path: string, source: nat, value: Json)
      requires Valid()
      modifies this
      ensures Valid() && entries == old(entries) + [Entry(path, source, value)]
    {
      var sofar := if path in acc then acc[path] else [];
      ghost var e := Entry(path, source, value);
      assert path !in acc ==> PartsAt(entries, path) == [] by {
        PartsWhere(entries, path);
        if PartsAt(entries, path) != [] { assert PartsAt(entries, path)[0] in PartsAt(entries, path); }
      }
      acc := acc[path := sofar + [Contribution(source, value)]];
      forall p { PartsSnoc(entries, e, p); }
      assert forall x :: x in entries + [e] <==> x in entries || x == e;
      entries := entries + [e];
    }

    /** flattenContributions */
    method FlattenContributions(prefix: string, v: Json, source: nat)
      requires Valid()
      modifies this
      ensures Valid() && entries == old(entries) + Flatten(prefix, v, source)
      decreases v, 1
    {
      match v
      case Object(m) =>
        if m == map[] && prefix != "" {
          Append(prefix, source, v);
        } else {
          var keys := SortedKeys(m.Keys);
          FlattenMembers(prefix, v, keys, source);
        }
      case _ =>
        if prefix != "" {
          Append(prefix, source, v);
        }
    }

    /** its loop over the keys of an object */
    method FlattenMembers(prefix: string, v: Json, keys: seq<string>, source: nat)
      requires Valid() && v.Object? && forall k | k in keys :: k in v.fields
      modifies this
      ensures Valid() && entries == old(entries) + FlattenKeys(prefix, v, keys, source)
      decreases v, 0
    {
      ghost var done: seq<Entry> := [];
      for i := 0 to |keys|
        invariant Valid() && entries == old(entries) + done
        invariant (forall k | k in keys[..i] :: k in v.fields) && done == FlattenKeys(prefix, v, keys[..i], source)
      {
        var k := keys[i];
        FlattenNext(prefix, v, keys, i, source);
        Associative(old(entries), done, Flatten(ChildPath(prefix, k), v.fields[k], source));
        FlattenContributions(ChildPath(prefix, k), v.fields[k], source);
        done := done + Flatten(ChildPath(prefix, k), v.fields[k], source);
      }
      assert keys[..|keys|] == keys;
    }
  }

  // ----- output -----

  datatype Setting = Setting(path: string, value: Json, conflict: bool, sources: set<nat>)

  datatype Conflict = Conflict(path: string, effective: Json, profiles: set<nat>, contributed: seq<Json>)

  datatype MergeResult = MergeResult(
    settings: seq<Setting>,
    conflicts: seq<Conflict>,
    conflictPaths: set<string>,
    conflictProfiles: set<nat>)

  /** The paths whose contributions conflict. */
  predicate Flagged(es: seq<Entry>, path: string) {
    path in PathsOf(es) && (ValuesWhere(es, path); Disagree(Values(es, path)))
  }

  predicate Contributes(es: seq<Entry>, source: nat, path: string) {
    exists e | e in es :: e.path == path && e.source == source
  }

  /** What the result says about one path. */
  predicate SettingIsRight(es: seq<Entry>, s: Setting) {
    && s.path in PathsOf(es)
    && (ValuesWhere(es, s.path); s.value == MergedValue(PathLeaf(s.path), Values(es, s.path)))
    && s.conflict == Flagged(es, s.path)
    && s.sources == SourcesOf(PartsAt(es, s.path))
  }

  /** A conflict report names the contributing profiles and lists the contributed values in the order of the profiles,
      strings in ascending order. */
  predicate ConflictIsRight(es: seq<Entry>, c: Conflict) {
    && Flagged(es, c.path)
    && (ValuesWhere(es, c.path); c.effective == MergedValue(PathLeaf(c.path), Values(es, c.path)))
    && c.profiles == SourcesOf(PartsAt(es, c.path))
    && c.contributed == Reported(Values(es, c.path))
  }

  function ConflictPathsIn(es: seq<Entry>, paths: seq<string>): seq<string> {
    if paths == [] then []
    else
      var n := |paths| - 1;
      ConflictPathsIn(es, paths[..n]) + if Flagged(es, paths[n]) then [paths[n]] else []
  }

  /** One setting for every path, in order. */
  predicate SettingsRight(es: seq<Entry>, paths: seq<string>, settings: seq<Setting>) {
    && |settings| == |paths|
    && forall i | 0 <= i < |paths| :: settings[i].path == paths[i] && SettingIsRight(es, settings[i])
  }

  /** One report for every flagged path, in order. */
  predicate ConflictsRight(es: seq<Entry>, paths: seq<string>, conflicts: seq<Conflict>) {
    && |conflicts| == |ConflictPathsIn(es, paths)|
    && forall i | 0 <= i < |conflicts| ::
         conflicts[i].path == ConflictPathsIn(es, paths)[i] && ConflictIsRight(es, conflicts[i])
  }

  ghost predicate PathsRight(es: seq<Entry>, paths: seq<string>, flagged: set<string>) {
    forall p :: p in flagged <==> p in paths && Flagged(es, p)
  }

  ghost predicate ProfilesRight(es: seq<Entry>, paths: seq<string>, ids: set<nat>) {
    forall id :: id in ids <==> exists p | p in paths :: Flagged(es, p) && Contributes(es, id, p)
  }

  predicate LeavesRight(es: seq<Entry>, leaves: map<string, Json>) {
    forall p | p in leaves :: p in MergedLeaves(es) && leaves[p] == MergedLeaves(es)[p]
  }

  /** Everything a correct result must say about the table. */
  ghost predicate ReportedBy(es: seq<Entry>, paths: seq<string>, r: MergeResult) {
    && SettingsRight(es, paths, r.settings)
    && ConflictsRight(es, paths, r.conflicts)
    && PathsRight(es, paths, r.conflictPaths)
    && ProfilesRight(es, paths, r.conflictProfiles)
  }

  lemma {:induction false} SourcesContribute(es: seq<Entry>, path: string)
    ensures forall id :: id in SourcesOf(PartsAt(es, path)) <==> Contributes(es, id, path)
  {
    PartsWhere(es, path);
    forall id | Contributes(es, id, path) ensures id in SourcesOf(PartsAt(es, path)) {
      var e :| e in es && e.path == path && e.source == id;
      assert Contribution(e.source, e.value) in PartsAt(es, path);
    }
    forall id | id in SourcesOf(PartsAt(es, path)) ensures Contributes(es, id, path) {
      var c :| c in PartsAt(es, path) && c.source == id;
    }
  }

  lemma {:induction false} MoreSettings(es: seq<Entry>, paths: seq<string>, settings: seq<Setting>, s: Setting)
    requires SettingsRight(es, paths, settings) && SettingIsRight(es, s)
    ensures SettingsRight(es, paths + [s.path], settings + [s])
  {
  }

  lemma {:induction false} MoreConflicts(es: seq<Entry>, paths: seq<string>, conflicts: seq<Conflict>, path: string,
                                         c: seq<Conflict>)
    requires ConflictsRight(es, paths, conflicts)
    requires if Flagged(es, path) then |c| == 1 && c[0].path == path && ConflictIsRight(es, c[0]) else c == []
    ensures ConflictsRight(es, paths + [path], conflicts + c)
  {
    assert (paths + [path])[..|paths|] == paths;
  }

  lemma {:induction false} MorePaths(es: seq<Entry>, paths: seq<string>, flagged: set<string>, path: string)
    requires PathsRight(es, paths, flagged)
    ensures PathsRight(es, paths + [path], if Flagged(es, path) then flagged + {path} else flagged)
  {
    assert forall p :: p in paths + [path] <==> p in paths || p == path;
  }

  lemma {:induction false} MoreProfiles(es: seq<Entry>, paths: seq<string>, ids: set<nat>, path: string)
    requires ProfilesRight(es, paths, ids)
    ensures ProfilesRight(es, paths + [path], if Flagged(es, path) then ids + SourcesOf(PartsAt(es, path)) else ids)
  {
    SourcesContribute(es, path);
    assert forall p :: p in paths + [path] <==> p in paths || p == path;
  }

  function Added(r: MergeResult, s: Setting, c: Conflict): MergeResult {
    if s.conflict then
      MergeResult(r.settings + [s], r.conflicts + [c], r.conflictPaths + {s.path}, r.conflictProfiles + c.profiles)
    else r.(settings := r.settings + [s])
  }

  /** One path of the report. */
  lemma {:induction false} ReportStep(es: seq<Entry>, paths: seq<string>, r: MergeResult, path: string, s: Setting,
                                      c: Conflict)
    requires ReportedBy(es, paths, r) && s.path == path && SettingIsRight(es, s)
    requires s.conflict ==> c.path == path && ConflictIsRight(es, c)
    ensures ReportedBy(es, paths + [path], Added(r, s, c))
  {
    MoreSettings(es, paths, r.settings, s);
    MoreConflicts(es, paths, r.conflicts, path, if s.conflict then [c] else []);
    MorePaths(es, paths, r.conflictPaths, path);
    MoreProfiles(es, paths, r.conflictProfiles, path);
    assert r.conflicts + [] == r.conflicts;
  }

  method DecodeAll(inputs: seq<AssignedPayload>) returns (r: Result<seq<Profile>>, table: ContributionTable)
    ensures r == Decode(inputs) && fresh(table) && table.Valid()
    ensures r.Ok? ==> table.entries == Entries(r.value)
  {
    table := new ContributionTable();
    var ps: seq<Profile> := [];
    for i := 0 to |inputs|
      invariant fresh(table) && table.Valid() && Decode(inputs[..i]) == Ok(ps) && table.entries == Entries(ps)
    {
      DecodeStep(inputs, i);
      if inputs[i].id != 0 {
        var d := DecodeRoot(inputs[i]);
        if d.Err? {
          r := Err(inputs[i].id);
          return;
        }
        table.FlattenContributions("", Object(d.value.fields), d.value.id);
        EntriesAppend(ps, [d.value]);
        EntriesSingle(d.value);
        ps := ps + [d.value];
      }
    }
    assert inputs[..|inputs|] == inputs;
    r := Ok(ps);
  }

  lemma {:induction false} NextPath(paths: seq<string>, i: nat)
    requires i < |paths|
    ensures paths[i] in paths && paths[..i + 1] == paths[..i] + [paths[i]]
    ensures SetOf(paths[..i + 1]) == SetOf(paths[..i]) + {paths[i]}
  {
    assert paths[..i + 1] == paths[..i] + [paths[i]];
  }

  lemma {:induction false} MoreLeaves(es: seq<Entry>, leaves: map<string, Json>, path: string, v: Json)
    requires LeavesRight(es, leaves) && path in MergedLeaves(es) && v == MergedLeaves(es)[path]
    ensures LeavesRight(es, leaves[path := v]) && leaves[path := v].Keys == leaves.Keys + {path}
  {
  }

  method AddToReport(r: MergeResult, s: Setting, c: Conflict) returns (report: MergeResult)
    ensures report == Added(r, s, c)
  {
    report := r.(settings := r.settings + [s]);
    if s.conflict {
      report := report.(conflictPaths := report.conflictPaths + {s.path},
                        conflictProfiles := report.conflictProfiles + c.profiles,
                        conflicts := report.conflicts + [c]);
    }
  }

  /** One round of the loop over the sorted paths. */
  method MergePath(acc: map<string, seq<Contribution>>, ghost es: seq<Entry>, path: string)
    returns (s: Setting, c: Conflict)
    requires IsTable(acc, es) && LeafEntries(es) && HaveSources(es) && path in acc
    ensures s.path == path == c.path && SettingIsRight(es, s)
    ensures s.conflict ==> ConflictIsRight(es, c)
    ensures path in MergedLeaves(es) && s.value == MergedLeaves(es)[path]
  {
    var parts := acc[path];
    TableParts(es, path);
    NoNilSource(es, path);
    var val, conflict, profiles, norms := MergeContributions(PathLeaf(path), parts);
    s := Setting(path, val, conflict, SourcesOf(parts));
    c := Conflict(path, val, profiles, norms);
  }

  /** The loop over the sorted paths. */
  method MergePaths(acc: map<string, seq<Contribution>>, ghost es: seq<Entry>, paths: seq<string>)
    returns (leaves: map<string, Json>, report: MergeResult)
    requires IsTable(acc, es) && LeafEntries(es) && HaveSources(es) && forall p | p in paths :: p in acc
    ensures leaves.Keys == SetOf(paths)
    ensures LeavesRight(es, leaves)
    ensures ReportedBy(es, paths, report)
  {
    leaves := map[];
    report := MergeResult([], [], {}, {});
    for i := 0 to |paths|
      invariant ReportedBy(es, paths[..i], report)
      invariant leaves.Keys == SetOf(paths[..i])
      invariant LeavesRight(es, leaves)
    {
      var path := paths[i];
      NextPath(paths, i);
      var s, c := MergePath(acc, es, path);
      ReportStep(es, paths[..i], report, path, s, c);
      MoreLeaves(es, leaves, path, s.value);
      leaves := leaves[path := s.value];
      report := AddToReport(report, s, c);
    }
    assert paths[..|paths|] == paths;
  }

  lemma {:induction false} AllLeaves(es: seq<Entry>, paths: seq<string>, leaves: map<string, Json>)
    requires LeafEntries(es) && paths == SortedKeys(PathsOf(es)) && leaves.Keys == SetOf(paths)
    requires LeavesRight(es, leaves)
    ensures leaves == MergedLeaves(es) && forall p | p in leaves :: IsLeaf(leaves[p])
  {
    MergedLeavesAreLeaves(es);
    assert SetOf(paths) == PathsOf(es);
    SameMap(leaves, MergedLeaves(es));
  }

  lemma {:induction false} SameMap<K, V>(a: map<K, V>, b: map<K, V>)
    requires a.Keys == b.Keys && forall k | k in a :: a[k] == b[k]
    ensures a == b
  {
  }

  /** Merging the table and rebuilding the payload from it. */
  method MergeTable(table: ContributionTable) returns (root: MapHeap.Rebuilder, report: MergeResult)
    requires table.Valid() && LeafEntries(table.entries) && HaveSources(table.entries)
    ensures root.Valid() && root.Contents() == Unflatten(MergedLeaves(table.entries)) && root.ObjectsInPlace()
    ensures forall p | p in MergedLeaves(table.entries) && MergedLeaves(table.entries)[p].Object? :: p in root.objects
    ensures ReportedBy(table.entries, SortedKeys(PathsOf(table.entries)), report)
  {
    var leaves: map<string, Json>;
    var paths := SortedKeys(table.acc.Keys);
    leaves, report := MergePaths(table.acc, table.entries, paths);
    AllLeaves(table.entries, paths, leaves);
    root := MapHeap.UnflattenLeaves(leaves);
  }

  /** MergeAssignedPayloads: the first input with an id that cannot be read is the error. Otherwise everything is merged
      that the inputs with an id hold; a single input whose keys are addressable comes back as it is. */
  method MergeAssignedPayloads(inputs: seq<AssignedPayload>)
    returns (r: Result<MergeResult>, root: MapHeap.Rebuilder?, ghost ps: seq<Profile>)
    ensures r.Err? <==> exists p | p in inputs :: Unreadable(p)
    ensures r.Err? ==> ErrorNames(inputs, r.profile)
    ensures r.Ok? ==>
      var es := Entries(ps);
      && ProfilesOf(inputs, ps)
      && root != null && root.Valid() && root.Contents() == EffectivePayload(ps)
      && ReportedBy(es, SortedKeys(PathsOf(es)), r.value)
      && root.ObjectsInPlace() && forall s | s in r.value.settings && s.value.Object? ::
           s.path in root.objects && Object(root.ObjectAt(s.path)) == ShownValue(s, root.Contents())
    ensures JustOne(inputs) ==>
      r.Ok? && root != null && root.Valid() && root.Contents() == inputs[0].payload.value.fields
  {
    var decoded, table := DecodeAll(inputs);
    DecodeFailsIff(inputs);
    ps := [];
    if decoded.Err? {
      FirstErrorDecides(inputs);
      return Err(decoded.profile), null, [];
    }
    ps := decoded.value;
    DecodedAreProfiles(inputs);
    if JustOne(inputs) { SinglePayload(inputs, ps); }
    EntriesAreLeaves(decoded.value);
    DecodedHaveIds(inputs);
    var report: MergeResult;
    root, report := MergeTable(table);
    r := Ok(report);
    forall s | s in report.settings && s.value.Object?
      ensures s.path in root.objects && Object(root.ObjectAt(s.path)) == ShownValue(s, root.Contents())
    {
      SettingOf(Entries(decoded.value), report, s);
      root.ObjectsShow(s.path);
    }
  }

  lemma {:induction false} SinglePayload(inputs: seq<AssignedPayload>, ps: seq<Profile>)
    requires JustOne(inputs) && ProfilesOf(inputs, ps)
    ensures EffectivePayload(ps) == inputs[0].payload.value.fields
  {
    assert inputs[1..] == [] && WithId(inputs[1..]) == [];
    assert WithId(inputs) == [inputs[0]] + [] == [inputs[0]];
    assert |ps| == 1 && ps == [ps[0]];
    RoundTripIffAddressable(ps[0]);
  }

  /** What a setting shows once the payload is rebuilt: a setting of `{}` holds the very map object that the rebuild put at
      its path, and shows what was written into it. */
  function ShownValue(s: Setting, payload: map<string, Json>): Json {
    if s.value.Object? && ReadAt(Object(payload), Split(s.path)).Some? then ReadAt(Object(payload), Split(s.path)).value
    else s.value
  }

  lemma {:induction false} SettingOf(es: seq<Entry>, r: MergeResult, s: Setting)
    requires s in r.settings && ReportedBy(es, SortedKeys(PathsOf(es)), r)
    ensures SettingIsRight(es, s) && s.path in MergedLeaves(es) && MergedLeaves(es)[s.path] == s.value
  {
    var i :| 0 <= i < |r.settings| && r.settings[i] == s;
    assert SettingIsRight(es, r.settings[i]);
  }

  /** A setting shows something other than its merged value exactly if that is `{}` and some path leads further down. */
  lemma {:induction false} ShownValueDiffersIff(ps: seq<Profile>, s: Setting)
    requires SettingIsRight(Entries(ps), s)
    ensures ShownValue(s, EffectivePayload(ps)) != s.value
       <==> s.value.Object? && exists q | q in PathsOf(Entries(ps)) :: Extends(q, s.path)
  {
    var es := Entries(ps);
    EntriesAreLeaves(ps);
    MergedLeavesAreLeaves(es);
    ValuesWhere(es, s.path);
    DeepestPathWins(MergedLeaves(es), s.path);
  }

  /** Inputs without an id are left out, so every contribution has a source. */
  predicate HaveSources(es: seq<Entry>) { forall e | e in es :: e.source != 0 }

  lemma {:induction false} DecodedHaveIds(inputs: seq<AssignedPayload>)
    requires Decode(inputs).Ok?
    ensures forall p | p in Decode(inputs).value :: p.id != 0
    ensures HaveSources(Entries(Decode(inputs).value))
  {
    if inputs != [] { DecodedHaveIds(inputs[1..]); }
    EntriesAreLeaves(Decode(inputs).value);
  }

  lemma {:induction false} NoNilSource(es: seq<Entry>, path: string)
    requires HaveSources(es)
    ensures SourcesOf(PartsAt(es, path)) - {0} == SourcesOf(PartsAt(es, path))
  {
    PartsWhere(es, path);
  }

  lemma {:induction false} TableParts(es: seq<Entry>, path: string)
    requires LeafEntries(es) && path in PathsOf(es)
    ensures var parts := PartsAt(es, path); parts != [] && LeafParts(parts) && ValuesOf(parts) == Values(es, path)
    ensures Values(es, path) != []
  {
    PartsValues(es, path);
    ValuesWhere(es, path);
    PartsWhere(es, path);
  }
}
