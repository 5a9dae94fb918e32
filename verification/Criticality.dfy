/** Exactly when a merged payload carries critical security controls, in terms of what the profiles contribute. */
module Criticality {
  import opened Text
  import opened Json
  import opened JsonText
  import opened Restrictive
  import opened Merging
  import opened Paths
  import opened Rebuild
  import opened Effective
  import opened PolicyLaws
  import opened Compliance

  // ----- the places of the controls -----

  const XML := "wifi_profile_xml"

  /** The places whose value makes a payload critical if it is not empty. */
  predicate AnyValuePlace(segs: seq<string>) {
    || (|segs| == 1 && segs[0] in ROOT_CONTROLS)
    || (|segs| == 2 && segs[0] == "windows" && segs[1] in WINDOWS_CONTROLS)
    || (|segs| == 2 && segs[0] == "linux" && segs[1] in LINUX_CONTROLS)
  }

  /** The place where only a string does. */
  predicate StringPlace(segs: seq<string>) { |segs| == 1 && segs[0] == XML }

  /** The places where only an object does. */
  predicate ObjectPlace(segs: seq<string>) { |segs| == 1 && segs[0] in OBJECT_CONTROLS }

  predicate ControlAt(segs: seq<string>) { AnyValuePlace(segs) || StringPlace(segs) || ObjectPlace(segs) }

  predicate Counts(segs: seq<string>, v: Json) {
    !EffectivelyEmpty(v)
    && (AnyValuePlace(segs) || (StringPlace(segs) && v.String?) || (ObjectPlace(segs) && v.Object?))
  }

  predicate CountsAt(m: map<string, Json>, segs: seq<string>) {
    var r := ReadAt(Object(m), segs);
    ControlAt(segs) && r.Some? && Counts(segs, r.value)
  }

  lemma {:induction false} ReadOne(m: map<string, Json>, k: string)
    ensures ReadAt(Object(m), [k]) == if k in m then Some(m[k]) else None
  {
    ReadStep(Object(m), [k]);
    assert [k][1..] == [];
  }

  lemma {:induction false} ReadTwo(m: map<string, Json>, j: string, k: string)
    ensures ReadAt(Object(m), [j, k])
         == if j in m && m[j].Object? && k in m[j].fields then Some(m[j].fields[k]) else None
  {
    ReadStep(Object(m), [j, k]);
    assert [j, k][1..] == [k] && [k][1..] == [];
    if j in m { ReadStep(m[j], [k]); }
  }

  /** A payload is critical exactly if some control place holds what counts there. */
  lemma {:induction false} CriticalByPlaces(m: map<string, Json>)
    ensures CarriesCriticalControls(m) <==> exists segs :: CountsAt(m, segs)
  {
    if CarriesCriticalControls(m) {
      var segs := SomePlace(m);
    }
    if segs :| CountsAt(m, segs) {
      PlaceIsCritical(m, segs);
    }
  }

  lemma {:induction false} SomePlace(m: map<string, Json>) returns (segs: seq<string>)
    requires CarriesCriticalControls(m)
    ensures CountsAt(m, segs)
  {
    if k :| k in ROOT_CONTROLS && Holds(m, k) {
      segs := [k];
      ReadOne(m, k);
    } else if XML in m && m[XML].String? && TrimSpace(m[XML].s) != "" {
      segs := [XML];
      ReadOne(m, XML);
    } else if "windows" in m && m["windows"].Object? && HoldsAny(m["windows"].fields, WINDOWS_CONTROLS) {
      var k :| k in WINDOWS_CONTROLS && Holds(m["windows"].fields, k);
      segs := ["windows", k];
      ReadTwo(m, "windows", k);
    } else if "linux" in m && m["linux"].Object? && HoldsAny(m["linux"].fields, LINUX_CONTROLS) {
      var k :| k in LINUX_CONTROLS && Holds(m["linux"].fields, k);
      segs := ["linux", k];
      ReadTwo(m, "linux", k);
    } else {
      var k :| k in OBJECT_CONTROLS && k in m && m[k].Object? && Holds(m, k);
      segs := [k];
      ReadOne(m, k);
    }
  }

  lemma {:induction false} PlaceIsCritical(m: map<string, Json>, segs: seq<string>)
    requires CountsAt(m, segs)
    ensures CarriesCriticalControls(m)
  {
    if |segs| == 1 {
      assert segs == [segs[0]];
      ReadOne(m, segs[0]);
      assert Holds(m, segs[0]);
    } else {
      assert segs == [segs[0], segs[1]];
      ReadTwo(m, segs[0], segs[1]);
      assert Holds(m[segs[0]].fields, segs[1]);
    }
  }

  // ----- what a payload shows at a place -----

  predicate Extended(ps: seq<Profile>, path: string) { exists q | q in PathsOf(Entries(ps)) :: Extends(q, path) }

  /** At any dot-free place, the effective payload shows a non-empty object if a contributed path leads further down, else
      the merge of what is contributed to the place, else nothing. */
  lemma {:induction false} PlaceReads(ps: seq<Profile>, segs: seq<string>)
    requires segs != [] && DotFreeSegments(segs) && segs[0] != ""
    ensures var r, path := ReadAt(Object(EffectivePayload(ps)), segs), Join(segs);
      if Extended(ps, path) then r.Some? && r.value.Object? && r.value.fields != map[]
      else if At(ps, path) != [] then r == Some(MergedValue(PathLeaf(path), At(ps, path)))
      else r == None
  {
    var es, path := Entries(ps), Join(segs);
    EntriesAreLeaves(ps);
    MergedLeavesAreLeaves(es);
    SplitJoin(segs);
    AtNonEmpty(ps, path);
    if q :| q in PathsOf(es) && Extends(q, path) {
      ExtensionsKeepObject(MergedLeaves(es), path, q);
    } else if path in PathsOf(es) {
      ValuesWhere(es, path);
      DeepestPathWins(MergedLeaves(es), path);
    } else {
      NothingThere(ps, segs);
    }
  }

  lemma {:induction false} NothingThere(ps: seq<Profile>, segs: seq<string>)
    requires segs != [] && DotFreeSegments(segs)
    requires !Extended(ps, Join(segs)) && Join(segs) !in PathsOf(Entries(ps))
    ensures ReadAt(Object(EffectivePayload(ps)), segs) == None
  {
    var es, payload := Entries(ps), Object(EffectivePayload(ps));
    EntriesAreLeaves(ps);
    if ReadAt(payload, segs).Some? {
      var more := SomeLeaf(ReadAt(payload, segs).value);
      ReadAppend(payload, segs, more);
      if more == [] {
        assert segs + more == segs;
      } else {
        JoinAppend(segs, more);
        assert Extends(Join(segs + more), Join(segs));
      }
      EffectiveReads(es, segs + more);
    }
  }

  // ----- when a merged value is effectively empty -----

  /** `[]`, or a list whose text sorts after that of `[]`: its first element is false, null, true or an object. */
  predicate YieldsToEmptyList(v: Json)
    requires v.Array?
  {
    v.elems == [] || Rank(v.elems[0]) >= 3
  }

  /** The contributions merge to something effectively empty:
      - a string among them, and the least of the strings is blank;
      - else no number, and a list among them: `[]` is one of the lists (the first contribution if all are lists), and
        the other lists sort after it;
      - else no false, and null among them;
      - else no true, so that they are all `{}`. */
  predicate Blank(vs: seq<Json>) {
    if exists v | v in vs :: v.String? then
      exists v | v in vs && v.String? :: TrimSpace(v.s) == "" && forall w | w in vs && w.String? :: Le(v.s, w.s)
    else if exists v | v in vs :: v.Num? then false
    else if exists v | v in vs :: v.Array? then
      && (if AllArrays(vs) then vs[0] == Array([]) else Array([]) in vs)
      && (forall v | v in vs && v.Array? :: YieldsToEmptyList(v))
    else if Bool(false) in vs then false
    else Null in vs || Bool(true) !in vs
  }

  lemma {:induction false} EmptyListText(es: seq<Json>)
    ensures Le(Encode(Array([])), Encode(Array(es))) <==> es == [] || Rank(es[0]) >= 3
  {
    var a, b := Encode(Array([])), Encode(Array(es));
    assert a == "[]" && a[0] == '[' && a[1] == ']';
    if es != [] {
      var rest := WriteElems(es[1..], "");
      WriteHead(es[0], rest);
      assert b == ['['] + Write(es[0], rest);
      assert b[1..] == Write(es[0], rest) && a[1..] == "]";
      var h := Write(es[0], rest)[0];
      assert Rank(es[0]) == 6 ==> h == '{' by { if es[0].Object? { ObjectHead(es[0], rest); } }
      assert ']' < h <==> RankOfHead(h) >= 3;
      assert ']' != h;
    }
  }

  lemma {:induction false} ObjectHead(v: Json, x: string)
    requires v.Object?
    ensures Write(v, x) != "" && Write(v, x)[0] == '{'
  {
  }

  lemma {:induction false} LeastListEmptyIff(vs: seq<Json>, w: Json)
    requires w in vs && w.Array? && forall v | v in vs && v.Array? :: Le(Encode(w), Encode(v))
    ensures w == Array([]) <==> Array([]) in vs && forall v | v in vs && v.Array? :: YieldsToEmptyList(v)
  {
    forall v | v in vs && v.Array? ensures Le(Encode(Array([])), Encode(v)) <==> YieldsToEmptyList(v) {
      EmptyListText(v.elems);
    }
    if Array([]) in vs && forall v | v in vs && v.Array? :: YieldsToEmptyList(v) {
      assert Le(Encode(Array([])), Encode(w)) && Le(Encode(w), Encode(Array([])));
      LeAntisymmetric(Encode(w), Encode(Array([])));
      EncodeInjective(w, Array([]));
    }
  }

  lemma {:induction false} StringListYields(v: Json)
    requires IsStringArray(v)
    ensures YieldsToEmptyList(v) <==> v == Array([])
  {
    if v.elems != [] { assert v.elems[0] in v.elems; }
  }

  lemma {:induction false} BlankLists(vs: seq<Json>)
    requires vs != [] && AllArrays(vs)
    ensures MergedArrays(vs) == Array([]) <==> Blank(vs)
  {
    assert vs[0] in vs && vs[0].Array?;
    assert Blank(vs) <==> vs[0] == Array([]) && forall v | v in vs :: YieldsToEmptyList(v);
    if AllEqual(vs) || !IsStringArray(vs[0]) {
    } else if forall v | v in vs :: IsStringArray(v) {
      forall v | v in vs ensures YieldsToEmptyList(v) <==> v == Array([]) { StringListYields(v); }
      var v :| v in vs && v != vs[0];
      UnionNotEmpty(vs, if vs[0] == Array([]) then v else vs[0]);
    } else {
      FoldIsTextLeast(vs);
      LeastListEmptyIff(vs, FoldPick("", vs));
      StringListYields(vs[0]);
    }
  }

  lemma {:induction false} UnionNotEmpty(vs: seq<Json>, v: Json)
    requires v in vs && IsStringArray(v) && v != Array([])
    ensures Union(vs) != Array([])
  {
    assert v.elems[0] in v.elems;
    assert v.elems[0].s in StringsOf(vs);
    assert v.elems[0].s in SortedKeys(StringsOf(vs));
  }

  /** The best contribution has the least rank, and is the least of its kind. */
  lemma {:induction false} BestHasLeastRank(key: string, vs: seq<Json>, w: Json, v: Json)
    requires !DenyKey(key) && IsBest(key, vs, w) && v in vs
    ensures Rank(w) <= Rank(v)
    ensures w.String? && v.String? ==> Le(w.s, v.s)
    ensures w.Array? && v.Array? ==> Le(Encode(w), Encode(v))
  {
    assert Wins(key, w, v);
    if KindOf(w) != KindOf(v) {
      PickByRank(key, w, v);
    } else if w.String? {
      LeTotal(w.s, v.s);
    } else if w.Array? {
      LeTotal(Encode(w), Encode(v));
    }
  }

  lemma {:induction false} BlankMixed(key: string, vs: seq<Json>)
    requires vs != [] && !DenyKey(key) && !AllArrays(vs) && forall v | v in vs :: IsLeaf(v)
    ensures EffectivelyEmpty(FoldPick(key, vs)) <==> Blank(vs)
  {
    FoldIsBest(key, vs);
    BlankBest(key, vs, FoldPick(key, vs));
  }

  lemma {:induction false} BlankBest(key: string, vs: seq<Json>, w: Json)
    requires vs != [] && !DenyKey(key) && !AllArrays(vs) && (forall v | v in vs :: IsLeaf(v)) && IsBest(key, vs, w)
    ensures EffectivelyEmpty(w) <==> Blank(vs)
  {
    forall v | v in vs
      ensures Rank(w) <= Rank(v) && (w.String? && v.String? ==> Le(w.s, v.s))
      ensures w.Array? && v.Array? ==> Le(Encode(w), Encode(v))
    {
      BestHasLeastRank(key, vs, w, v);
    }
    match w
    case String(s) => BlankStrings(vs, s);
    case Array(_) => LeastListEmptyIff(vs, w);
    case _ =>
  }

  lemma {:induction false} BlankStrings(vs: seq<Json>, s: string)
    requires String(s) in vs && forall v | v in vs && v.String? :: Le(s, v.s)
    ensures TrimSpace(s) == "" <==> Blank(vs)
  {
    assert String(s).String?;
    if v :| v in vs && v.String? && TrimSpace(v.s) == "" && forall w | w in vs && w.String? :: Le(v.s, w.s) {
      LeAntisymmetric(v.s, s);
    }
  }

  /** The merge of contributions to a key that is not a deny key is effectively empty exactly if they are blank. */
  lemma {:induction false} MergedEmptyIffBlank(key: string, vs: seq<Json>)
    requires vs != [] && !DenyKey(key) && forall v | v in vs :: IsLeaf(v)
    ensures EffectivelyEmpty(MergedValue(key, vs)) <==> Blank(vs)
  {
    if AllArrays(vs) {
      BlankLists(vs);
      MergedListIsList(vs);
    } else {
      BlankMixed(key, vs);
    }
  }

  lemma {:induction false} MergedListIsList(vs: seq<Json>)
    requires vs != [] && AllArrays(vs)
    ensures MergedArrays(vs).Array?
  {
    assert vs[0] in vs;
    FoldIsMember("", vs);
  }

  lemma {:induction false} MergedStringIff(key: string, vs: seq<Json>)
    requires vs != [] && !DenyKey(key)
    ensures MergedValue(key, vs).String? <==> exists v | v in vs :: v.String?
  {
    if AllArrays(vs) {
      MergedListIsList(vs);
    } else {
      FoldIsBest(key, vs);
      if v :| v in vs && v.String? { BestHasLeastRank(key, vs, FoldPick(key, vs), v); }
    }
  }

  // ----- control keys are not deny keys -----

  predicate PlainEnd(c: char) { c == 'y' || c == 'l' || c == 'i' }

  lemma {:induction false} ControlNames(k: string)
    requires k in ROOT_CONTROLS || k in WINDOWS_CONTROLS || k in LINUX_CONTROLS || k == XML
    ensures k != "" && PlainEnd(k[|k| - 1]) && !IsSpace(k[0]) && DotFree(k)
  {
    assert |"security"| == 8 && |"registry"| == 8 && |"windows_firewall"| == 16 && |"firewall"| == 8 && |"wifi"| == 4;
    assert |"wifi_profile_xml"| == 16 && |"sysctl"| == 6 && |"linux_firewall"| == 14;
  }

  lemma {:induction false} LowerLast(s: string)
    requires s != ""
    ensures |ToLower(s)| == |s| && ToLower(s)[|s| - 1] == LowerChar(s[|s| - 1])
  {
    if |s| > 1 { LowerLast(s[1..]); } else { assert s[1..] == []; }
  }

  lemma {:induction false} PlainEndIsNotDeny(key: string)
    requires key != "" && PlainEnd(key[|key| - 1])
    ensures !DenyKey(key)
  {
    LowerLast(key);
    var l := ToLower(key);
    assert l[|l| - 1] == key[|key| - 1] != 'd';
    assert |"_disabled"| == 9 && |"_blocked"| == 8 && |"_denied"| == 7;
    if HasSuffix(l, "_disabled") { SuffixEnd(l, "_disabled"); }
    if HasSuffix(l, "_blocked") { SuffixEnd(l, "_blocked"); }
    if HasSuffix(l, "_denied") { SuffixEnd(l, "_denied"); }
  }

  lemma {:induction false} SuffixEnd(s: string, suffix: string)
    requires HasSuffix(s, suffix) && suffix != ""
    ensures s != "" && s[|s| - 1] == suffix[|suffix| - 1]
  {
    assert s[|s| - 1] == s[|s| - |suffix|..][|suffix| - 1];
  }

  lemma {:induction false} JoinEnd(segs: seq<string>)
    requires segs != [] && segs[|segs| - 1] != ""
    ensures Join(segs) != "" && var k := segs[|segs| - 1]; Join(segs)[|Join(segs)| - 1] == k[|k| - 1]
  {
    if |segs| > 1 { JoinEnd(segs[1..]); }
  }

  lemma {:induction false} JoinStart(segs: seq<string>)
    requires segs != [] && segs[0] != ""
    ensures Join(segs) != "" && Join(segs)[0] == segs[0][0]
  {
  }

  lemma {:induction false} LeafOfPlace(segs: seq<string>)
    requires segs != [] && DotFreeSegments(segs) && segs[0] != "" && !IsSpace(segs[0][0])
    requires segs[|segs| - 1] != "" && PlainEnd(segs[|segs| - 1][|segs[|segs| - 1]| - 1])
    ensures PathLeaf(Join(segs)) == segs[|segs| - 1]
  {
    JoinStart(segs);
    JoinEnd(segs);
    TrimNothing(Join(segs));
    SplitJoin(segs);
  }

  lemma {:induction false} PlacesAreDotFree(segs: seq<string>)
    requires ControlAt(segs)
    ensures segs != [] && DotFreeSegments(segs) && segs[0] != ""
  {
    assert |"windows"| == 7 && |"linux"| == 5 && |"android"| == 7;
    forall s | s in segs ensures DotFree(s) {
      if s in ROOT_CONTROLS || s in WINDOWS_CONTROLS || s in LINUX_CONTROLS || s == XML { ControlNames(s); }
    }
  }

  lemma {:induction false} ValuePlacesAreNotDeny(segs: seq<string>)
    requires AnyValuePlace(segs) || StringPlace(segs)
    ensures segs != [] && !DenyKey(PathLeaf(Join(segs)))
  {
    PlacesAreDotFree(segs);
    var k := segs[|segs| - 1];
    ControlNames(k);
    if |segs| == 1 { ControlNames(segs[0]); }
    assert |"windows"| == 7 && |"linux"| == 5 && !IsSpace('w') && !IsSpace('l');
    LeafOfPlace(segs);
    PlainEndIsNotDeny(k);
  }

  // ----- the theorem -----

  /** The contributions to a control place make the merged payload critical: a path leads below a place that takes objects;
      or none does, and what is contributed to the place itself is not blank, and a string where only strings count. */
  predicate Shows(ps: seq<Profile>, segs: seq<string>) {
    && ControlAt(segs) && segs != []
    && var path := Join(segs);
       if Extended(ps, path) then !StringPlace(segs)
       else
         && !ObjectPlace(segs) && At(ps, path) != [] && !Blank(At(ps, path))
         && (StringPlace(segs) ==> exists v | v in At(ps, path) :: v.String?)
  }

  lemma {:induction false} PlacesApart(segs: seq<string>)
    ensures !(AnyValuePlace(segs) && StringPlace(segs)) && !(AnyValuePlace(segs) && ObjectPlace(segs))
    ensures !(StringPlace(segs) && ObjectPlace(segs))
  {
    assert |"security"| == 8 && |"registry"| == 8 && |"windows_firewall"| == 16 && |"firewall"| == 8 && |"wifi"| == 4;
    assert |"wifi_profile_xml"| == 16 && |"linux_firewall"| == 14 && |"android"| == 7;
    assert "wifi_profile_xml"[1] == 'i' && "windows_firewall"[2] == 'n' && "wifi_profile_xml"[2] == 'f';
  }

  lemma {:induction false} ShownAt(ps: seq<Profile>, segs: seq<string>)
    requires ControlAt(segs)
    ensures CountsAt(EffectivePayload(ps), segs) <==> Shows(ps, segs)
  {
    PlacesAreDotFree(segs);
    PlacesApart(segs);
    PlaceReads(ps, segs);
    var path := Join(segs);
    if !Extended(ps, path) && At(ps, path) != [] {
      var vs := At(ps, path);
      ValuesAreLeaves(ps, path);
      MergedIsLeaf(PathLeaf(path), vs);
      if !ObjectPlace(segs) {
        ValuePlacesAreNotDeny(segs);
        MergedEmptyIffBlank(PathLeaf(path), vs);
        MergedStringIff(PathLeaf(path), vs);
      }
    }
  }

  lemma {:induction false} ValuesAreLeaves(ps: seq<Profile>, path: string)
    ensures forall v | v in At(ps, path) :: IsLeaf(v)
  {
    EntriesAreLeaves(ps);
    ValuesWhere(Entries(ps), path);
  }

  /** The merged payload of any profiles is critical exactly if the contributions to some control place say so. */
  lemma {:induction false} CriticalIff(ps: seq<Profile>)
    ensures CarriesCriticalControls(EffectivePayload(ps)) <==> exists segs :: Shows(ps, segs)
  {
    CriticalByPlaces(EffectivePayload(ps));
    if segs :| CountsAt(EffectivePayload(ps), segs) { ShownAt(ps, segs); }
    if segs :| Shows(ps, segs) { ShownAt(ps, segs); }
  }

  // ----- lists: the order of the profiles decides -----

  /** Whether lists merge to `[]` depends on their order exactly if `[]` meets other lists, all of which sort after it. */
  lemma {:induction false} ListControlDependsOnOrderIff(vs: seq<Json>)
    requires vs != [] && AllArrays(vs)
    ensures (exists us: seq<Json>, ws: seq<Json> ::
               us != [] && ws != [] && SameElements(us, vs) && SameElements(ws, vs) && Blank(us) && !Blank(ws))
       <==> Array([]) in vs && (exists v | v in vs :: v != Array([])) && forall v | v in vs :: YieldsToEmptyList(v)
  {
    if us: seq<Json>, ws: seq<Json> :|
      us != [] && ws != [] && SameElements(us, vs) && SameElements(ws, vs) && Blank(us) && !Blank(ws)
    {
      ListsBlank(us, vs);
      ListsBlank(ws, vs);
      assert ws[0] in ws && us[0] in us;
    }
    if Array([]) in vs && (exists v | v in vs :: v != Array([])) && forall v | v in vs :: YieldsToEmptyList(v) {
      var v :| v in vs && v != Array([]);
      var us := ToFront(vs, Array([]));
      var ws := ToFront(vs, v);
      ListsBlank(us, vs);
      ListsBlank(ws, vs);
      assert Blank(us) && !Blank(ws);
    }
  }

  lemma {:induction false} ListsBlank(us: seq<Json>, vs: seq<Json>)
    requires us != [] && AllArrays(vs) && SameElements(us, vs)
    ensures AllArrays(us) && forall v :: v in us <==> v in vs
    ensures Blank(us) <==> us[0] == Array([]) && forall v | v in vs :: YieldsToEmptyList(v)
  {
    SameMembers(us, vs);
    assert us[0] in us && us[0].Array?;
  }

  // ----- two profiles that set one control -----

  predicate OneKey(p: Profile, k: string, x: Json) {
    DotFree(k) && k != "" && IsLeaf(x) && p.fields == map[k := x]
  }

  lemma {:induction false} OneSetting(a: Profile, k: string, x: Json, path: string)
    requires OneKey(a, k, x)
    ensures At([a], path) == if path == k then [x] else []
  {
    SingleValues(a, path);
    SplitDotFree(k);
    var q := Split(path);
    ReadStep(Object(a.fields), q);
    if path == k {
      assert q[1..] == [];
    } else if q[0] == k {
      if q[1..] == [] { assert q == [k]; SplitInjective(path, k); }
      ReadStep(x, q[1..]);
    }
  }

  lemma {:induction false} TwoSettings(a: Profile, b: Profile, k: string, x: Json, y: Json, path: string)
    requires OneKey(a, k, x) && OneKey(b, k, y)
    ensures At([a, b], path) == if path == k then [x, y] else []
    ensures !Extended([a, b], path)
  {
    OneSetting(a, k, x, path);
    OneSetting(b, k, y, path);
    PairAt(a, b, path);
    forall q | q in PathsOf(Entries([a, b])) ensures q == k {
      OneSetting(a, k, x, q);
      OneSetting(b, k, y, q);
      PairAt(a, b, q);
      AtNonEmpty([a, b], q);
    }
    if Extends(k, path) { ExtensionHasDot(k, path); }
  }

  lemma {:induction false} ExtensionHasDot(q: string, p: string)
    requires Extends(q, p)
    ensures !DotFree(q)
  {
    assert q[|p|] == (p + ".")[|p|] == '.';
  }

  /** Two profiles that set the same root control to x and y: the merge is critical exactly if [x, y] is not blank. */
  lemma {:induction false} TwoProfilesCriticalIff(a: Profile, b: Profile, k: string, x: Json, y: Json)
    requires k in ROOT_CONTROLS && OneKey(a, k, x) && OneKey(b, k, y)
    ensures CarriesCriticalControls(EffectivePayload([a, b])) <==> !Blank([x, y])
  {
    var ps := [a, b];
    CriticalIff(ps);
    TwoSettings(a, b, k, x, y, k);
    assert Join([k]) == k;
    if !Blank([x, y]) {
      assert [k][0] == k && AnyValuePlace([k]);
      PlacesApart([k]);
      assert Shows(ps, [k]);
    }
    if segs :| Shows(ps, segs) {
      OnlyThatPlace(a, b, k, x, y, segs);
    }
  }

  lemma {:induction false} OnlyThatPlace(a: Profile, b: Profile, k: string, x: Json, y: Json, segs: seq<string>)
    requires k in ROOT_CONTROLS && OneKey(a, k, x) && OneKey(b, k, y) && Shows([a, b], segs)
    ensures !Blank([x, y])
  {
    TwoSettings(a, b, k, x, y, Join(segs));
  }

  /** A string control is lost to any profile that sets it to a blank string which sorts no later. */
  lemma {:induction false} StringControlLostIff(a: Profile, b: Profile, k: string, x: string, y: string)
    requires k in ROOT_CONTROLS && OneKey(a, k, String(x)) && OneKey(b, k, String(y))
    ensures CarriesCriticalControls(EffectivePayload([a, b])) <==> TrimSpace(if Le(x, y) then x else y) != ""
  {
    TwoProfilesCriticalIff(a, b, k, String(x), String(y));
    BlankTwoStrings(x, y);
  }

  lemma {:induction false} BlankTwoStrings(x: string, y: string)
    ensures Blank([String(x), String(y)]) <==> TrimSpace(if Le(x, y) then x else y) == ""
  {
    LeTotal(x, y);
    LeTotal(x, x);
    LeTotal(y, y);
    var vs := [String(x), String(y)];
    assert vs[0] in vs && vs[1] in vs;
    BlankStrings(vs, if Le(x, y) then x else y);
  }

  /** A list control that `[]` sorts before is kept or erased by the order of the profiles. */
  lemma {:induction false} ListControlErasedByOrder(a: Profile, b: Profile, k: string, x: Json)
    requires k in ROOT_CONTROLS && OneKey(a, k, x) && OneKey(b, k, Array([]))
    requires x.Array? && x.elems != [] && YieldsToEmptyList(x)
    ensures CarriesCriticalControls(EffectivePayload([a, b])) && !CarriesCriticalControls(EffectivePayload([b, a]))
  {
    TwoProfilesCriticalIff(a, b, k, x, Array([]));
    TwoProfilesCriticalIff(b, a, k, Array([]), x);
    BlankTwoLists(x);
  }

  lemma {:induction false} BlankTwoLists(x: Json)
    requires x.Array? && x.elems != [] && YieldsToEmptyList(x)
    ensures !Blank([x, Array([])]) && Blank([Array([]), x])
  {
    var us, ws := [x, Array([])], [Array([]), x];
    assert us[0] in us && ws[0] in ws;
    ListsBlank(us, us);
    ListsBlank(ws, ws);
  }
}
