/** Critical security controls and the compliance status of a device. */
module Compliance {
  import opened Text
  import opened Json
  import opened Paths
  import opened Rebuild
  import opened Effective

  // ----- critical controls -----

  predicate EffectivelyEmpty(v: Json) {
    match v
    case Null => true
    case Object(m) => m == map[]
    case Array(es) => es == []
    case String(s) => TrimSpace(s) == ""
    case _ => false
  }

  predicate Holds(m: map<string, Json>, k: string) { k in m && !EffectivelyEmpty(m[k]) }

  predicate HoldsAny(m: map<string, Json>, ks: seq<string>) { exists k | k in ks :: Holds(m, k) }

  const ROOT_CONTROLS := ["security", "registry", "windows_firewall", "firewall", "wifi"]
  const WINDOWS_CONTROLS := ["registry", "windows_firewall", "firewall", "wifi", "wifi_profile_xml"]
  const LINUX_CONTROLS := ["sysctl", "linux_firewall", "firewall"]
  const OBJECT_CONTROLS := ["linux_firewall", "android"]

  /** PayloadCarriesCriticalSecurityControls */
  predicate CarriesCriticalControls(m: map<string, Json>) {
    || HoldsAny(m, ROOT_CONTROLS)
    || ("wifi_profile_xml" in m && m["wifi_profile_xml"].String? && TrimSpace(m["wifi_profile_xml"].s) != "")
    || ("windows" in m && m["windows"].Object? && HoldsAny(m["windows"].fields, WINDOWS_CONTROLS))
    || ("linux" in m && m["linux"].Object? && HoldsAny(m["linux"].fields, LINUX_CONTROLS))
    || (exists k | k in OBJECT_CONTROLS :: k in m && m[k].Object? && Holds(m, k))
  }

  /** The places where a non-empty object is a critical control. */
  predicate ControlPlace(segs: seq<string>) {
    || (|segs| == 1 && (segs[0] in ROOT_CONTROLS || segs[0] in OBJECT_CONTROLS))
    || (|segs| == 2 && segs[0] == "windows" && segs[1] in WINDOWS_CONTROLS)
    || (|segs| == 2 && segs[0] == "linux" && segs[1] in LINUX_CONTROLS)
  }

  /** The value at a place is an object with at least one key. */
  predicate ObjectBelow(v: Json, segs: seq<string>) {
    var r := ReadAt(v, segs);
    r.Some? && r.value.Object? && r.value.fields != map[]
  }

  predicate ObjectAt(m: map<string, Json>, segs: seq<string>) { ObjectBelow(Object(m), segs) }

  lemma {:induction false} ControlIsCritical(m: map<string, Json>, segs: seq<string>)
    requires ControlPlace(segs) && ObjectAt(m, segs)
    ensures CarriesCriticalControls(m)
  {
    ReadStep(Object(m), segs);
    if |segs| == 1 {
      assert segs[1..] == [];
      assert Holds(m, segs[0]);
    } else {
      var sub := m[segs[0]];
      assert segs[1..] == [segs[1]] && segs[1..][1..] == [];
      ReadStep(sub, segs[1..]);
      assert Holds(sub.fields, segs[1]);
    }
  }

  lemma {:induction false} ControlSegments(segs: seq<string>)
    requires ControlPlace(segs)
    ensures segs != [] && DotFreeSegments(segs) && segs[0] != ""
  {
  }

  // ----- an object below a path contributes below the path -----

  lemma {:induction false} MemberContributes(prefix: string, v: Json, ks: seq<string>, k: string, source: nat)
    requires v.Object? && k in ks && forall l | l in ks :: l in v.fields
    ensures forall e | e in Flatten(ChildPath(prefix, k), v.fields[k], source) :: e in FlattenKeys(prefix, v, ks, source)
    decreases |ks|
  {
    assert ks == [ks[0]] + ks[1..];
    if k != ks[0] {
      MemberContributes(prefix, v, ks[1..], k, source);
    }
  }

  lemma {:induction false} ChildContributes(prefix: string, v: Json, k: string, source: nat, e: Entry)
    requires v.Object? && k in v.fields && e in Flatten(ChildPath(prefix, k), v.fields[k], source)
    ensures e in Flatten(prefix, v, source)
  {
    MemberContributes(prefix, v, SortedKeys(v.fields.Keys), k, source);
  }

  lemma {:induction false} ChildExtends(prefix: string, k: string)
    requires prefix != ""
    ensures ChildPath(prefix, k) != "" && Extends(ChildPath(prefix, k), prefix)
  {
  }

  /** Every subtree contributes something at or below its path. */
  lemma {:induction false} SubtreeContributes(prefix: string, v: Json, source: nat) returns (e: Entry)
    requires prefix != ""
    ensures e in Flatten(prefix, v, source) && (e.path == prefix || Extends(e.path, prefix))
    decreases v
  {
    if IsLeaf(v) {
      e := Entry(prefix, source, v);
    } else {
      e := ObjectContributesBelow(prefix, v, source);
    }
  }

  lemma {:induction false} ObjectContributesBelow(prefix: string, v: Json, source: nat) returns (e: Entry)
    requires prefix != "" && v.Object? && v.fields != map[]
    ensures e in Flatten(prefix, v, source) && Extends(e.path, prefix)
    decreases v, 0
  {
    var k :| k in v.fields;
    ChildExtends(prefix, k);
    e := SubtreeContributes(ChildPath(prefix, k), v.fields[k], source);
    ChildContributes(prefix, v, k, source, e);
    ExtendsTransitive(e.path, ChildPath(prefix, k), prefix);
  }

  lemma {:induction false} ObjectStep(v: Json, segs: seq<string>)
    requires segs != [] && ObjectBelow(v, segs)
    ensures v.Object? && segs[0] in v.fields && ObjectBelow(v.fields[segs[0]], segs[1..])
  {
    ReadStep(v, segs);
  }

  /** A non-empty object at some place contributes strictly below that place. */
  lemma {:induction false} ObjectContributes(prefix: string, v: Json, segs: seq<string>, source: nat, p: seq<string>)
    returns (e: Entry)
    requires DotFreeSegments(segs) && p == Segments(prefix) && ObjectBelow(v, segs)
    requires prefix == "" ==> segs != [] && segs[0] != ""
    ensures e in Flatten(prefix, v, source) && p + segs < Split(e.path)
    decreases segs
  {
    if segs == [] {
      e := ObjectContributesBelow(prefix, v, source);
      ExtendsIsProperPrefix(e.path, prefix);
      assert p + segs == p;
    } else {
      var k := segs[0];
      assert k in segs;
      ObjectStep(v, segs);
      ChildSegments(prefix, k);
      var child := ChildPath(prefix, k);
      e := ObjectContributes(child, v.fields[k], segs[1..], source, p + [k]);
      ChildContributes(prefix, v, k, source, e);
      Regroup(p, segs);
    }
  }

  lemma {:induction false} Regroup(p: seq<string>, segs: seq<string>)
    requires segs != []
    ensures p + [segs[0]] + segs[1..] == p + segs
  {
  }

  lemma {:induction false} EntriesOfMember(ps: seq<Profile>, p: Profile)
    requires p in ps
    ensures forall e | e in Contributed(p) :: e in Entries(ps)
    decreases |ps|
  {
    assert ps == [ps[0]] + ps[1..];
    if p != ps[0] {
      EntriesOfMember(ps[1..], p);
    }
  }

  /** A non-empty object that some profile holds survives every merge as a non-empty object. */
  lemma {:induction false} ObjectSurvives(ps: seq<Profile>, p: Profile, segs: seq<string>)
    requires p in ps && segs != [] && DotFreeSegments(segs) && segs[0] != "" && ObjectAt(p.fields, segs)
    ensures ObjectAt(EffectivePayload(ps), segs)
  {
    var es := Entries(ps);
    var e := ObjectContributes("", Object(p.fields), segs, p.id, []);
    EntriesOfMember(ps, p);
    EntriesAreLeaves(ps);
    MergedLeavesAreLeaves(es);
    SplitJoin(segs);
    assert [] + segs == segs;
    ExtendsIsProperPrefix(e.path, Join(segs));
    ExtensionsKeepObject(MergedLeaves(es), Join(segs), e.path);
  }

  /** If any assigned profile holds a non-empty object as a critical control, the merged payload is critical,
      whatever the other profiles contain. */
  lemma {:induction false} CriticalitySurvivesMerging(ps: seq<Profile>, p: Profile, segs: seq<string>)
    requires p in ps && ControlPlace(segs) && ObjectAt(p.fields, segs)
    ensures CarriesCriticalControls(EffectivePayload(ps))
  {
    ControlSegments(segs);
    ObjectSurvives(ps, p, segs);
    ControlIsCritical(EffectivePayload(ps), segs);
  }

  // ----- the controls by name -----

  predicate SomeText(s: string) { exists c | c in s :: !IsSpace(c) }

  lemma {:induction false} SomeTextIff(s: string)
    ensures SomeText(s) <==> TrimSpace(s) != ""
  {
    var a, b := TrimmedParts(s);
    var t := TrimSpace(s);
    if t != [] { assert t[0] in a + t + b; }
    if t == [] { assert forall c | c in a + b :: c in a || c in b; }
  }

  /** A control that says something: a boolean, a number, text that is not blank, or a list or object that is not empty. */
  predicate Says(v: Json) {
    match v
    case Null => false
    case Bool(_) => true
    case Num(_) => true
    case String(s) => SomeText(s)
    case Array(es) => |es| > 0
    case Object(m) => |m| > 0
  }

  lemma {:induction false} SaysIff(v: Json)
    ensures Says(v) <==> !EffectivelyEmpty(v)
  {
    if v.String? { SomeTextIff(v.s); }
    if v.Object? { assert v.fields == map[] <==> |v.fields| == 0; }
  }

  predicate SaysAt(m: map<string, Json>, k: string) { k in m && Says(m[k]) }

  predicate SaysBelow(m: map<string, Json>, j: string, k: string) { j in m && m[j].Object? && SaysAt(m[j].fields, k) }

  lemma {:induction false} HoldsIff(m: map<string, Json>, k: string)
    ensures Holds(m, k) <==> SaysAt(m, k)
  {
    if k in m { SaysIff(m[k]); }
  }

  lemma {:induction false} HoldsAnyIff(m: map<string, Json>, ks: seq<string>)
    ensures HoldsAny(m, ks) <==> exists k | k in ks :: SaysAt(m, k)
  {
    forall k | k in ks ensures Holds(m, k) <==> SaysAt(m, k) { HoldsIff(m, k); }
  }

  lemma {:induction false} WindowsControls(m: map<string, Json>)
    ensures HoldsAny(m, WINDOWS_CONTROLS) <==>
      SaysAt(m, "registry") || SaysAt(m, "windows_firewall") || SaysAt(m, "firewall") || SaysAt(m, "wifi")
      || SaysAt(m, "wifi_profile_xml")
  {
    HoldsAnyIff(m, WINDOWS_CONTROLS);
  }

  lemma {:induction false} LinuxControls(m: map<string, Json>)
    ensures HoldsAny(m, LINUX_CONTROLS) <==>
      SaysAt(m, "sysctl") || SaysAt(m, "linux_firewall") || SaysAt(m, "firewall")
  {
    HoldsAnyIff(m, LINUX_CONTROLS);
  }

  lemma {:induction false} RootControls(m: map<string, Json>)
    ensures HoldsAny(m, ROOT_CONTROLS) <==>
      SaysAt(m, "security") || SaysAt(m, "registry") || SaysAt(m, "windows_firewall") || SaysAt(m, "firewall")
      || SaysAt(m, "wifi")
  {
    HoldsAnyIff(m, ROOT_CONTROLS);
  }

  /** A payload is critical exactly if one of these controls says something. */
  lemma {:induction false} CriticalByName(m: map<string, Json>)
    ensures CarriesCriticalControls(m) <==>
      || SaysAt(m, "security") || SaysAt(m, "registry") || SaysAt(m, "windows_firewall") || SaysAt(m, "firewall")
      || SaysAt(m, "wifi")
      || (SaysAt(m, "wifi_profile_xml") && m["wifi_profile_xml"].String?)
      || SaysBelow(m, "windows", "registry") || SaysBelow(m, "windows", "windows_firewall")
      || SaysBelow(m, "windows", "firewall") || SaysBelow(m, "windows", "wifi")
      || SaysBelow(m, "windows", "wifi_profile_xml")
      || SaysBelow(m, "linux", "sysctl") || SaysBelow(m, "linux", "linux_firewall") || SaysBelow(m, "linux", "firewall")
      || (SaysAt(m, "linux_firewall") && m["linux_firewall"].Object?) || (SaysAt(m, "android") && m["android"].Object?)
  {
    RootControls(m);
    HoldsIff(m, "wifi_profile_xml");
    HoldsIff(m, "linux_firewall");
    HoldsIff(m, "android");
    if "windows" in m && m["windows"].Object? { WindowsControls(m["windows"].fields); }
    if "linux" in m && m["linux"].Object? { LinuxControls(m["linux"].fields); }
  }

  /** The names under which a non-empty object of any profile makes every merge critical. */
  predicate NamesControl(segs: seq<string>) {
    || segs == ["security"] || segs == ["registry"] || segs == ["windows_firewall"] || segs == ["firewall"]
    || segs == ["wifi"] || segs == ["linux_firewall"] || segs == ["android"]
    || segs == ["windows", "registry"] || segs == ["windows", "windows_firewall"] || segs == ["windows", "firewall"]
    || segs == ["windows", "wifi"] || segs == ["windows", "wifi_profile_xml"]
    || segs == ["linux", "sysctl"] || segs == ["linux", "linux_firewall"] || segs == ["linux", "firewall"]
  }

  lemma {:induction false} NamedControlSurvives(ps: seq<Profile>, p: Profile, segs: seq<string>)
    requires p in ps && NamesControl(segs) && ObjectAt(p.fields, segs)
    ensures CarriesCriticalControls(EffectivePayload(ps))
  {
    assert ControlPlace(segs);
    CriticalitySurvivesMerging(ps, p, segs);
  }
}
