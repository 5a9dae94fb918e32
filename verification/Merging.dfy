/** The merged value of all contributions to one path, and when it depends on their order or grouping. */
module Merging {
  import opened Text
  import opened Json
  import opened JsonText
  import opened Restrictive

  predicate IsStringArray(v: Json) {
    v.Array? && forall x | x in v.elems :: x.String?
  }

  predicate AllArrays(vs: seq<Json>) { forall v | v in vs :: v.Array? }

  predicate AllEqual(vs: seq<Json>) { forall v | v in vs :: v == vs[0] }

  /** The strings listed by any of the arrays. */
  function StringsOf(vs: seq<Json>): set<string> {
    set v, x | v in vs && v.Array? && x in v.elems && x.String? :: x.s
  }

  function ArrayOf(ss: seq<string>): Json {
    Array(seq(|ss|, i requires 0 <= i < |ss| => String(ss[i])))
  }

  /** All listed strings, sorted, each once. */
  function Union(vs: seq<Json>): Json {
    ArrayOf(SortedKeys(StringsOf(vs)))
  }

  /** mergeArrayRestrictive: string lists are united, other disagreeing arrays compared as text; an array with
      a non-string element in first place wins unseen. */
  function MergedArrays(vs: seq<Json>): Json
    requires vs != []
  {
    if AllEqual(vs) || !IsStringArray(vs[0]) then vs[0]
    else if forall v | v in vs :: IsStringArray(v) then Union(vs)
    else FoldPick("", vs)
  }

  /** mergeContributions */
  function MergedValue(leafKey: string, vs: seq<Json>): Json
    requires vs != []
  {
    if AllArrays(vs) then MergedArrays(vs) else FoldPick(leafKey, vs)
  }

  lemma {:induction false} MergedSingle(leafKey: string, v: Json)
    ensures MergedValue(leafKey, [v]) == v
  {
  }

  lemma {:induction false} MergedIsLeaf(leafKey: string, vs: seq<Json>)
    requires vs != [] && forall v | v in vs :: IsLeaf(v)
    ensures IsLeaf(MergedValue(leafKey, vs))
  {
    FoldIsMember(leafKey, vs);
    FoldIsMember("", vs);
  }

  // ----- order -----

  predicate SameElements(vs: seq<Json>, ws: seq<Json>) { multiset(vs) == multiset(ws) }

  lemma {:induction false} SameMembers(vs: seq<Json>, ws: seq<Json>)
    requires SameElements(vs, ws)
    ensures forall v :: v in vs <==> v in ws
    ensures |vs| == |ws|
  {
    assert forall v :: v in vs <==> v in multiset(vs);
    assert forall v :: v in ws <==> v in multiset(ws);
    assert |multiset(vs)| == |vs| && |multiset(ws)| == |ws|;
  }

  lemma {:induction false} BestSurvivesReordering(leafKey: string, vs: seq<Json>, ws: seq<Json>)
    requires vs != [] && SameElements(vs, ws) && !TriadOnTop(leafKey, vs)
    ensures ws != [] && FoldPick(leafKey, ws) == FoldPick(leafKey, vs)
  {
    SameMembers(vs, ws);
    FoldIsBest(leafKey, vs);
    FoldIsBest(leafKey, ws);
    BestUnique(leafKey, vs, FoldPick(leafKey, vs), FoldPick(leafKey, ws));
  }

  /** The text-least array is among the candidates, and no candidate's text is smaller. */
  predicate IsTextLeast(w: Json, vs: seq<Json>) {
    w in vs && forall v | v in vs :: Le(Encode(w), Encode(v))
  }

  /** Either every array lists strings only, or all are equal, or there is a single non-string array and its
      text is the least of all. */
  predicate ArraysSettled(vs: seq<Json>)
    requires vs != []
  {
    || (forall v | v in vs :: IsStringArray(v))
    || AllEqual(vs)
    || (forall v | v in vs && !IsStringArray(v) :: IsTextLeast(v, vs))
  }

  /** The condition, checkable on the contributions alone, for the merged value not to depend on their order. */
  predicate Confluent(leafKey: string, vs: seq<Json>)
    requires vs != []
  {
    if AllArrays(vs) then ArraysSettled(vs) else !TriadOnTop(leafKey, vs)
  }

  lemma {:induction false} TextLeastIsBest(w: Json, vs: seq<Json>)
    requires vs != [] && AllArrays(vs)
    ensures IsTextLeast(w, vs) <==> IsBest("", vs, w)
  {
    forall v | v in vs && w in vs
      ensures Wins("", w, v) <==> Le(Encode(w), Encode(v))
    {
      LeTotal(Encode(w), Encode(w));
    }
  }

  lemma {:induction false} TextLeastUnique(vs: seq<Json>, v: Json, w: Json)
    requires IsTextLeast(v, vs) && IsTextLeast(w, vs)
    ensures v == w
  {
    LeAntisymmetric(Encode(v), Encode(w));
    EncodeInjective(v, w);
  }

  lemma {:induction false} FoldIsTextLeast(vs: seq<Json>)
    requires vs != [] && AllArrays(vs)
    ensures IsTextLeast(FoldPick("", vs), vs)
  {
    FoldIsBest("", vs);
    TextLeastIsBest(FoldPick("", vs), vs);
  }

  lemma {:induction false} ConfluentArrays(vs: seq<Json>, ws: seq<Json>)
    requires vs != [] && AllArrays(vs) && SameElements(vs, ws) && ArraysSettled(vs)
    ensures ws != [] && MergedArrays(ws) == MergedArrays(vs)
  {
    SameMembers(vs, ws);
    assert vs[0] in vs && ws[0] in ws;
    if AllEqual(vs) {
    } else if forall v | v in vs :: IsStringArray(v) {
      assert StringsOf(vs) == StringsOf(ws);
      assert !AllEqual(ws);
    } else {
      var n :| n in vs && !IsStringArray(n);
      forall us | us == vs || us == ws ensures MergedArrays(us) == n {
        assert IsTextLeast(n, us);
        FoldIsTextLeast(us);
        TextLeastUnique(us, FoldPick("", us), n);
        if !IsStringArray(us[0]) {
          TextLeastUnique(us, us[0], n);
        }
      }
    }
  }

  lemma {:induction false} ConfluentIsEnough(leafKey: string, vs: seq<Json>, ws: seq<Json>)
    requires vs != [] && SameElements(vs, ws) && Confluent(leafKey, vs)
    ensures ws != [] && MergedValue(leafKey, ws) == MergedValue(leafKey, vs)
  {
    SameMembers(vs, ws);
    if AllArrays(vs) {
      ConfluentArrays(vs, ws);
    } else {
      BestSurvivesReordering(leafKey, vs, ws);
    }
  }

  // ----- orders that disagree, when the condition fails -----

  lemma {:induction false} Remove(vs: seq<Json>, x: Json) returns (rest: seq<Json>)
    requires x in vs
    ensures SameElements(rest + [x], vs)
  {
    var i :| 0 <= i < |vs| && vs[i] == x;
    rest := vs[..i] + vs[i + 1..];
    assert vs == vs[..i] + [x] + vs[i + 1..];
  }

  /** An arrangement with a chosen contribution in front. */
  lemma {:induction false} ToFront(vs: seq<Json>, x: Json) returns (ws: seq<Json>)
    requires x in vs
    ensures SameElements(ws, vs) && ws != [] && ws[0] == x
  {
    var rest := Remove(vs, x);
    ws := [x] + rest;
    assert SameElements(ws, rest + [x]);
  }

  lemma {:induction false} ArraysDisagree(vs: seq<Json>) returns (us: seq<Json>, ws: seq<Json>)
    requires vs != [] && AllArrays(vs) && !ArraysSettled(vs)
    ensures SameElements(us, vs) && SameElements(ws, vs) && us != [] && ws != []
    ensures MergedArrays(us) != MergedArrays(ws)
  {
    var n :| n in vs && !IsStringArray(n) && !IsTextLeast(n, vs);
    us := ToFront(vs, n);
    SameMembers(us, vs);
    assert MergedArrays(us) == n;
    var least := FoldPick("", vs);
    FoldIsTextLeast(vs);
    ws := ToFront(vs, least);
    SameMembers(ws, vs);
    FoldIsTextLeast(ws);
    TextLeastUnique(vs, FoldPick("", ws), least);
    assert n in ws;
  }

  /** What is left after taking one `true`, one `false` and one null out. */
  lemma {:induction false} TakeTriad(leafKey: string, vs: seq<Json>) returns (rest: seq<Json>)
    requires TriadOnTop(leafKey, vs)
    ensures SameElements(rest + [Bool(true), Bool(false), Null], vs)
    ensures forall v | v in rest :: Rank(v) >= 3
  {
    var a := Remove(vs, Bool(true));
    SameMembers(a + [Bool(true)], vs);
    assert Bool(false) in a + [Bool(true)] && Null in a + [Bool(true)];
    var b := Remove(a, Bool(false));
    SameMembers(b + [Bool(false)], a);
    assert Null in b + [Bool(false)];
    rest := Remove(b, Null);
    SameMembers(rest + [Null], b);
    assert rest + [Bool(true), Bool(false), Null] == rest + [Bool(true)] + [Bool(false)] + [Null];
    assert multiset(rest + [Bool(true), Bool(false), Null])
        == multiset(rest) + multiset{Bool(true), Bool(false), Null};
    assert multiset(vs) == multiset(a) + multiset{Bool(true)};
    assert multiset(a) == multiset(b) + multiset{Bool(false)};
    assert multiset(b) == multiset(rest) + multiset{Null};
    assert forall v | v in rest :: v in rest + [Null];
    assert forall v | v in b :: v in b + [Bool(false)];
    assert forall v | v in a :: v in a + [Bool(true)];
  }

  lemma {:induction false} FoldAppend(leafKey: string, vs: seq<Json>, x: Json)
    requires vs != []
    ensures FoldPick(leafKey, vs + [x]) == Pick(leafKey, FoldPick(leafKey, vs), x)
  {
    assert (vs + [x])[..|vs|] == vs;
  }

  /** In a deny setting, with only true, false, null and {} around. */
  lemma {:induction false} TriadPicks(leafKey: string, v: Json)
    requires DenyKey(leafKey) && Rank(v) >= 3
    ensures Pick(leafKey, v, Bool(true)) == if v == Null then Null else Bool(true)
    ensures Pick(leafKey, v, Bool(false)) == if v == Bool(true) then Bool(true) else Bool(false)
    ensures Pick(leafKey, v, Null) == if v == Bool(false) then Bool(false) else Null
  {
    if !v.Bool? {
      PickByRank(leafKey, v, Bool(true));
      PickByRank(leafKey, v, Bool(false));
      assert Rank(v) < Rank(Bool(true)) <==> v == Null;
    }
    if v == Null {
      assert Pick(leafKey, Null, Null) == PickByText(Null, Null);
    } else {
      PickByRank(leafKey, v, Null);
    }
  }

  lemma {:induction false} TriadFolds(leafKey: string, rest: seq<Json>)
    requires DenyKey(leafKey) && forall v | v in rest :: Rank(v) >= 3
    ensures FoldPick(leafKey, rest + [Bool(false), Bool(true), Null]) == Null
    ensures FoldPick(leafKey, rest + [Bool(true), Null, Bool(false)]) == Bool(false)
  {
    var t, f, n := Bool(true), Bool(false), Null;
    if rest != [] {
      FoldIsMember(leafKey, rest);
      TriadPicks(leafKey, FoldPick(leafKey, rest));
      FoldAppend(leafKey, rest, f);
      FoldAppend(leafKey, rest, t);
    }
    TriadPicks(leafKey, t);
    TriadPicks(leafKey, f);
    TriadPicks(leafKey, n);
    FoldAppend(leafKey, rest + [f], t);
    FoldAppend(leafKey, rest + [f] + [t], n);
    FoldAppend(leafKey, rest + [t], n);
    FoldAppend(leafKey, rest + [t] + [n], f);
    assert rest + [f, t, n] == rest + [f] + [t] + [n];
    assert rest + [t, n, f] == rest + [t] + [n] + [f];
  }

  lemma {:induction false} TriadArrangement(vs: seq<Json>, rest: seq<Json>, tail: seq<Json>) returns (us: seq<Json>)
    requires SameElements(rest + [Bool(true), Bool(false), Null], vs)
    requires multiset(tail) == multiset{Bool(true), Bool(false), Null}
    ensures us == rest + tail && us != [] && SameElements(us, vs) && !AllArrays(us)
  {
    us := rest + tail;
    assert |tail| == |multiset(tail)| == 3;
    assert tail[0] in multiset(tail);
    assert us[|rest|] == tail[0] && us[|rest|] in us;
    assert multiset(us) == multiset(rest) + multiset(tail);
    assert multiset(rest + [Bool(true), Bool(false), Null]) == multiset(rest) + multiset{Bool(true), Bool(false), Null};
  }

  lemma {:induction false} TriadDisagrees(leafKey: string, vs: seq<Json>) returns (us: seq<Json>, ws: seq<Json>)
    requires TriadOnTop(leafKey, vs)
    ensures SameElements(us, vs) && SameElements(ws, vs) && us != [] && ws != []
    ensures MergedValue(leafKey, us) != MergedValue(leafKey, ws)
  {
    var rest := TakeTriad(leafKey, vs);
    TriadFolds(leafKey, rest);
    us := TriadArrangement(vs, rest, [Bool(false), Bool(true), Null]);
    ws := TriadArrangement(vs, rest, [Bool(true), Null, Bool(false)]);
  }

  ghost predicate OrderIndependent(leafKey: string, vs: seq<Json>)
    requires vs != []
  {
    forall ws: seq<Json> | ws != [] && SameElements(vs, ws) :: MergedValue(leafKey, ws) == MergedValue(leafKey, vs)
  }

  /** The merged value is the same for every order of the contributions exactly when they are confluent. */
  lemma {:induction false} OrderIndependentIffConfluent(leafKey: string, vs: seq<Json>)
    requires vs != []
    ensures OrderIndependent(leafKey, vs) <==> Confluent(leafKey, vs)
  {
    if Confluent(leafKey, vs) {
      forall ws: seq<Json> | ws != [] && SameElements(vs, ws)
        ensures MergedValue(leafKey, ws) == MergedValue(leafKey, vs)
      {
        ConfluentIsEnough(leafKey, vs, ws);
      }
    } else if AllArrays(vs) {
      var us, ws := ArraysDisagree(vs);
      SameMembers(vs, us);
      SameMembers(vs, ws);
      assert MergedValue(leafKey, us) != MergedValue(leafKey, ws);
    } else {
      var us, ws := TriadDisagrees(leafKey, vs);
      assert MergedValue(leafKey, us) != MergedValue(leafKey, ws);
    }
  }

  // ----- grouping -----

  /** Merging two groups first and their results afterwards gives the same as merging everything at once. */
  predicate Composes(leafKey: string, xs: seq<Json>, ys: seq<Json>)
    requires xs != [] && ys != []
  {
    MergedValue(leafKey, [MergedValue(leafKey, xs), MergedValue(leafKey, ys)]) == MergedValue(leafKey, xs + ys)
  }

  predicate StringArraysOnly(vs: seq<Json>) {
    forall v | v in vs && v.Array? :: IsStringArray(v)
  }

  predicate ArraysAgree(vs: seq<Json>) {
    forall v, w | v in vs && w in vs && v.Array? && w.Array? :: v == w
  }

  /** One of the lists is the sorted list of all strings, and it is the least list by text. */
  predicate UnionIsLeast(vs: seq<Json>) {
    Union(vs) in vs && forall v | v in vs && v.Array? :: Le(Encode(Union(vs)), Encode(v))
  }

  /** Lists are united only among themselves: a list must not meet other kinds that it outranks, unless
      uniting the lists changes nothing. */
  predicate ArraysCompose(vs: seq<Json>) {
    AllArrays(vs) || (exists v | v in vs :: Rank(v) < 2) || ArraysAgree(vs) || UnionIsLeast(vs)
  }

  predicate Composable(leafKey: string, vs: seq<Json>) {
    !TriadOnTop(leafKey, vs) && ArraysCompose(vs)
  }

  lemma {:induction false} UnionIsStringArray(vs: seq<Json>)
    ensures IsStringArray(Union(vs)) && StringsOf([Union(vs)]) == StringsOf(vs)
  {
    var ks := SortedKeys(StringsOf(vs));
    var u := Union(vs);
    forall k | k in StringsOf(vs) ensures k in StringsOf([u]) {
      var i :| 0 <= i < |ks| && ks[i] == k;
      assert u.elems[i] == String(k);
    }
    forall k | k in StringsOf([u]) ensures k in StringsOf(vs) {
      var i :| 0 <= i < |u.elems| && u.elems[i].s == k;
      assert ks[i] in ks;
    }
  }

  lemma {:induction false} MergedArrayStrings(vs: seq<Json>)
    requires vs != [] && forall v | v in vs :: IsStringArray(v)
    ensures IsStringArray(MergedArrays(vs)) && StringsOf([MergedArrays(vs)]) == StringsOf(vs)
  {
    if !AllEqual(vs) {
      UnionIsStringArray(vs);
    }
  }

  lemma {:induction false} MergedPair(leafKey: string, a: Json, b: Json)
    ensures !a.Array? || !b.Array? ==> MergedValue(leafKey, [a, b]) == Pick(leafKey, a, b)
    ensures IsStringArray(a) && IsStringArray(b) ==>
      MergedValue(leafKey, [a, b]) == MergedArrays([a, b]) == if a == b then a else Union([a, b])
  {
    FoldAppend(leafKey, [a], b);
    assert [a] + [b] == [a, b] && [a, b][1] == b;
    assert a in [a, b] && b in [a, b];
  }

  lemma {:induction false} ConcatStrings(xs: seq<Json>, ys: seq<Json>)
    ensures StringsOf(xs + ys) == StringsOf(xs) + StringsOf(ys)
  {
    assert forall v :: v in xs + ys <==> v in xs || v in ys;
  }

  lemma {:induction false} AllEqualConcat(xs: seq<Json>, ys: seq<Json>)
    requires xs != [] && ys != []
    ensures AllEqual(xs + ys) <==> AllEqual(xs) && AllEqual(ys) && xs[0] == ys[0]
  {
    assert (xs + ys)[0] == xs[0] && xs[0] in xs && ys[0] in ys;
    assert forall v :: v in xs + ys <==> v in xs || v in ys;
  }

  lemma {:induction false} MergedStringArrays(vs: seq<Json>)
    requires vs != [] && forall v | v in vs :: IsStringArray(v)
    ensures MergedArrays(vs) == if AllEqual(vs) then vs[0] else Union(vs)
  {
    assert vs[0] in vs;
  }

  lemma {:induction false} ArraysComposeAlone(xs: seq<Json>, ys: seq<Json>)
    requires xs != [] && ys != []
    requires forall v | v in xs :: IsStringArray(v)
    requires forall v | v in ys :: IsStringArray(v)
    ensures MergedArrays([MergedArrays(xs), MergedArrays(ys)]) == MergedArrays(xs + ys)
  {
    var mx, my := MergedArrays(xs), MergedArrays(ys);
    MergedArrayStrings(xs);
    MergedArrayStrings(ys);
    MergedStringArrays(xs);
    MergedStringArrays(ys);
    MergedStringArrays(xs + ys);
    ConcatStrings(xs, ys);
    PairStrings(mx, my);
    AllEqualConcat(xs, ys);
    MergedPair("", mx, my);
    assert StringsOf([mx, my]) == StringsOf(xs + ys);
    if mx == my {
      assert StringsOf(xs) == StringsOf(ys) == StringsOf(xs + ys);
    }
  }

  lemma {:induction false} PairStrings(a: Json, b: Json)
    ensures StringsOf([a, b]) == StringsOf([a]) + StringsOf([b])
  {
    assert forall v :: v in [a, b] <==> v in [a] || v in [b];
  }

  lemma {:induction false} PairMerges(leafKey: string, mx: Json, my: Json, w: Json)
    requires (mx == w || my == w) && Wins(leafKey, w, mx) && Wins(leafKey, w, my)
    requires !mx.Array? || !my.Array?
    ensures MergedValue(leafKey, [mx, my]) == w
  {
    MergedPair(leafKey, mx, my);
    PickCommutes(leafKey, mx, my);
  }

  lemma {:induction false} MergedArraysIsArray(vs: seq<Json>)
    requires vs != [] && AllArrays(vs)
    ensures MergedArrays(vs).Array?
  {
    assert vs[0] in vs;
    FoldIsMember("", vs);
  }

  lemma {:induction false} MergedMember(leafKey: string, vs: seq<Json>)
    requires vs != []
    ensures MergedValue(leafKey, vs) in vs || (AllArrays(vs) && MergedValue(leafKey, vs).Array?)
  {
    if AllArrays(vs) {
      MergedArraysIsArray(vs);
    } else {
      FoldIsMember(leafKey, vs);
    }
  }

  /** A group, seen from the best contribution w of a larger list that is a string or a number. */
  lemma {:induction false} GroupUnderScalar(leafKey: string, zs: seq<Json>, vs: seq<Json>, w: Json)
    requires vs != [] && IsBest(leafKey, zs, w) && Rank(w) < 2 && forall v | v in vs :: v in zs
    ensures Wins(leafKey, w, MergedValue(leafKey, vs)) && (w in vs ==> MergedValue(leafKey, vs) == w)
  {
    var m := MergedValue(leafKey, vs);
    MergedMember(leafKey, vs);
    if m !in zs {
      PickByRank(leafKey, w, m);
    }
    if w in vs {
      FoldIsBest(leafKey, vs);
      BestUnique(leafKey, vs, m, w);
    }
  }

  /** A group, seen from the best contribution w of a larger list that is null, a bool or {}. */
  lemma {:induction false} GroupUnderOther(leafKey: string, zs: seq<Json>, vs: seq<Json>, w: Json)
    requires vs != [] && IsBest(leafKey, zs, w) && Rank(w) > 2 && forall v | v in vs :: v in zs
    requires !TriadOnTop(leafKey, zs)
    ensures Wins(leafKey, w, MergedValue(leafKey, vs)) && (w in vs ==> MergedValue(leafKey, vs) == w)
  {
    forall v | v in zs ensures Rank(v) > 2 {
      if Rank(v) <= 2 { PickByRank(leafKey, w, v); }
    }
    assert vs[0] in vs;
    var m := MergedValue(leafKey, vs);
    MergedMember(leafKey, vs);
    if w in vs {
      assert !TriadOnTop(leafKey, vs);
      FoldIsBest(leafKey, vs);
      BestUnique(leafKey, vs, m, w);
    }
  }

  lemma {:induction false} ArrayBest(leafKey: string, zs: seq<Json>, w: Json)
    requires IsBest(leafKey, zs, w) && w.Array? && (ArraysAgree(zs) || UnionIsLeast(zs))
    ensures ArraysAgree(zs) || w == Union(zs)
    ensures forall v | v in zs :: Rank(v) >= 2
  {
    forall v | v in zs ensures Rank(v) >= 2 {
      if Rank(v) < 2 { PickByRank(leafKey, w, v); }
    }
    if UnionIsLeast(zs) {
      var u := Union(zs);
      LeTotal(Encode(w), Encode(w));
      assert Wins(leafKey, w, u);
      LeAntisymmetric(Encode(w), Encode(u));
      EncodeInjective(w, u);
    }
  }

  lemma {:induction false} MemberStrings(zs: seq<Json>, vs: seq<Json>, m: Json)
    requires m in zs && forall v | v in vs :: v in zs
    ensures StringsOf([m]) <= StringsOf(zs) && StringsOf(vs) <= StringsOf(zs)
  {
  }

  /** A group of lists only, seen from the best contribution w of a larger list that is a string list. */
  lemma {:induction false} ArrayGroupUnderArray(leafKey: string, zs: seq<Json>, vs: seq<Json>, w: Json)
    requires vs != [] && IsBest(leafKey, zs, w) && w.Array? && forall v | v in vs :: v in zs
    requires StringArraysOnly(zs) && (ArraysAgree(zs) || UnionIsLeast(zs)) && AllArrays(vs)
    ensures var m := MergedValue(leafKey, vs);
            && (w in vs || ArraysAgree(zs) ==> m == w)
            && IsStringArray(m) && StringsOf([m]) <= StringsOf(zs)
  {
    ArrayBest(leafKey, zs, w);
    assert vs[0] in vs;
    MergedArrayStrings(vs);
    MemberStrings(zs, vs, w);
    if w in vs && !AllEqual(vs) && !ArraysAgree(zs) {
      UnionIsStringArray(zs);
      MemberStrings(vs, [], w);
      assert StringsOf(vs) == StringsOf(zs);
    }
  }

  /** The same for a group that mixes lists with other kinds. */
  lemma {:induction false} MixedGroupUnderArray(leafKey: string, zs: seq<Json>, vs: seq<Json>, w: Json)
    requires vs != [] && IsBest(leafKey, zs, w) && w.Array? && forall v | v in vs :: v in zs
    requires StringArraysOnly(zs) && (ArraysAgree(zs) || UnionIsLeast(zs)) && !AllArrays(vs)
    ensures var m := MergedValue(leafKey, vs);
            && (w in vs ==> m == w)
            && (m.Array? ==> IsStringArray(m) && StringsOf([m]) <= StringsOf(zs))
            && (!m.Array? ==> Wins(leafKey, w, m) && forall v | v in vs :: !v.Array?)
            && (ArraysAgree(zs) && m.Array? ==> m == w)
  {
    var m := MergedValue(leafKey, vs);
    ArrayBest(leafKey, zs, w);
    FoldIsMember(leafKey, vs);
    MemberStrings(zs, vs, m);
    if v :| v in vs && v.Array? {
      FoldIsBest(leafKey, vs);
      if !m.Array? { PickByRank(leafKey, m, v); }
      if w in vs { BestUnique(leafKey, vs, m, w); }
    }
  }

  lemma {:induction false} ComposeUnderArray(leafKey: string, xs: seq<Json>, ys: seq<Json>, w: Json)
    requires xs != [] && ys != [] && !AllArrays(xs + ys)
    requires IsBest(leafKey, xs + ys, w) && w.Array?
    requires StringArraysOnly(xs + ys) && (ArraysAgree(xs + ys) || UnionIsLeast(xs + ys))
    ensures MergedValue(leafKey, [MergedValue(leafKey, xs), MergedValue(leafKey, ys)]) == w
  {
    var zs, mx, my := xs + ys, MergedValue(leafKey, xs), MergedValue(leafKey, ys);
    ArrayBest(leafKey, zs, w);
    PickCommutes(leafKey, w, w);
    if AllArrays(xs) { ArrayGroupUnderArray(leafKey, zs, xs, w); } else { MixedGroupUnderArray(leafKey, zs, xs, w); }
    if AllArrays(ys) { ArrayGroupUnderArray(leafKey, zs, ys, w); } else { MixedGroupUnderArray(leafKey, zs, ys, w); }
    assert w in xs || w in ys;
    if mx.Array? && my.Array? {
      MergedPair(leafKey, mx, my);
      if mx != my {
        UnionIsStringArray(zs);
        PairStrings(mx, my);
        assert StringsOf([mx, my]) == StringsOf(zs);
      }
    } else {
      PairMerges(leafKey, mx, my, w);
    }
  }

  /** Grouping does not matter for composable contributions whose lists are lists of strings. */
  lemma {:induction false} ComposableIsEnough(leafKey: string, xs: seq<Json>, ys: seq<Json>)
    requires xs != [] && ys != [] && StringArraysOnly(xs + ys) && Composable(leafKey, xs + ys)
    ensures Composes(leafKey, xs, ys)
  {
    var zs := xs + ys;
    assert forall v | v in xs :: v in zs;
    assert forall v | v in ys :: v in zs;
    if AllArrays(zs) {
      ArraysComposeAlone(xs, ys);
    } else {
      FoldIsBest(leafKey, zs);
      var w := FoldPick(leafKey, zs);
      if Rank(w) < 2 {
        GroupUnderScalar(leafKey, zs, xs, w);
        GroupUnderScalar(leafKey, zs, ys, w);
        PairMerges(leafKey, MergedValue(leafKey, xs), MergedValue(leafKey, ys), w);
      } else if w.Array? {
        forall v | v in zs ensures Rank(v) >= 2 {
          if Rank(v) < 2 { PickByRank(leafKey, w, v); }
        }
        ComposeUnderArray(leafKey, xs, ys, w);
      } else {
        GroupUnderOther(leafKey, zs, xs, w);
        GroupUnderOther(leafKey, zs, ys, w);
        PairMerges(leafKey, MergedValue(leafKey, xs), MergedValue(leafKey, ys), w);
      }
    }
  }

  // ----- groupings that disagree, when the condition fails -----

  lemma {:induction false} TriadPairs(leafKey: string)
    requires DenyKey(leafKey)
    ensures FoldPick(leafKey, [Bool(true), Null]) == Null
    ensures FoldPick(leafKey, [Null, Bool(false)]) == Bool(false)
    ensures MergedValue(leafKey, [Bool(false), Null]) == Bool(false)
    ensures MergedValue(leafKey, [Bool(true), Bool(false)]) == Bool(true)
  {
    TriadPicks(leafKey, Bool(true));
    TriadPicks(leafKey, Bool(false));
    TriadPicks(leafKey, Null);
    MergedPair(leafKey, Bool(true), Null);
    MergedPair(leafKey, Null, Bool(false));
    MergedPair(leafKey, Bool(false), Null);
    MergedPair(leafKey, Bool(true), Bool(false));
    assert [Bool(true), Null][0] in [Bool(true), Null] && [Null, Bool(false)][0] in [Null, Bool(false)];
  }

  lemma {:induction false} TriadGroups(leafKey: string, vs: seq<Json>) returns (xs: seq<Json>, ys: seq<Json>)
    requires TriadOnTop(leafKey, vs)
    ensures xs != [] && ys != [] && SameElements(xs + ys, vs) && !Composes(leafKey, xs, ys)
  {
    var t, f, n := Bool(true), Bool(false), Null;
    var rest := TakeTriad(leafKey, vs);
    if rest != [] && FoldPick(leafKey, rest) == n {
      xs, ys := rest + [f], [t, n];
      var us := TriadArrangement(vs, rest, [f, t, n]);
      assert xs + ys == us;
      TriadGroupsApart(leafKey, rest, f, [t, n]);
    } else {
      xs, ys := rest + [t], [n, f];
      var us := TriadArrangement(vs, rest, [t, n, f]);
      assert xs + ys == us;
      TriadGroupsApart(leafKey, rest, t, [n, f]);
    }
  }

  lemma {:induction false} MergedMixed(leafKey: string, vs: seq<Json>, x: Json)
    requires x in vs && !x.Array?
    ensures MergedValue(leafKey, vs) == FoldPick(leafKey, vs)
  {
  }

  lemma {:induction false} TriadFoldStep(leafKey: string, rest: seq<Json>, x: Json)
    requires DenyKey(leafKey) && forall v | v in rest :: Rank(v) >= 3
    requires x == if rest != [] && FoldPick(leafKey, rest) == Null then Bool(false) else Bool(true)
    ensures FoldPick(leafKey, rest + [x]) == x
  {
    if rest != [] {
      FoldIsMember(leafKey, rest);
      TriadPicks(leafKey, FoldPick(leafKey, rest));
      FoldAppend(leafKey, rest, x);
    }
  }

  lemma {:induction false} TriadGroupsApart(leafKey: string, rest: seq<Json>, x: Json, tail: seq<Json>)
    requires DenyKey(leafKey) && forall v | v in rest :: Rank(v) >= 3
    requires x == if rest != [] && FoldPick(leafKey, rest) == Null then Bool(false) else Bool(true)
    requires tail == if x == Bool(false) then [Bool(true), Null] else [Null, Bool(false)]
    ensures !Composes(leafKey, rest + [x], tail)
  {
    var xs := rest + [x];
    TriadFoldStep(leafKey, rest, x);
    TriadFolds(leafKey, rest);
    TriadPairs(leafKey);
    assert xs + tail == rest + [x, tail[0], tail[1]];
    assert xs[|rest|] == x && (xs + tail)[|rest|] == x;
    MergedMixed(leafKey, xs, x);
    MergedMixed(leafKey, xs + tail, x);
    MergedMixed(leafKey, tail, if x == Bool(false) then tail[0] else tail[1]);
  }

  /** Only what satisfies the test, in order. */
  function ArraysIn(vs: seq<Json>): seq<Json> {
    if vs == [] then [] else (if vs[0].Array? then [vs[0]] else []) + ArraysIn(vs[1..])
  }

  function OthersIn(vs: seq<Json>): seq<Json> {
    if vs == [] then [] else (if vs[0].Array? then [] else [vs[0]]) + OthersIn(vs[1..])
  }

  lemma {:induction false} Parts(vs: seq<Json>)
    ensures SameElements(ArraysIn(vs) + OthersIn(vs), vs)
    ensures AllArrays(ArraysIn(vs)) && forall v | v in OthersIn(vs) :: !v.Array?
  {
    if vs != [] {
      Parts(vs[1..]);
      var a, o := ArraysIn(vs[1..]), OthersIn(vs[1..]);
      assert vs == [vs[0]] + vs[1..];
      assert multiset(a + o) == multiset(a) + multiset(o);
      assert multiset(ArraysIn(vs) + OthersIn(vs)) == multiset(ArraysIn(vs)) + multiset(OthersIn(vs));
    }
  }

  lemma {:induction false} PartsMembers(vs: seq<Json>)
    ensures SameElements(ArraysIn(vs) + OthersIn(vs), vs)
    ensures forall v :: v in ArraysIn(vs) <==> v in vs && v.Array?
    ensures forall v :: v in OthersIn(vs) <==> v in vs && !v.Array?
  {
    Parts(vs);
    SameMembers(ArraysIn(vs) + OthersIn(vs), vs);
    assert forall v :: v in ArraysIn(vs) + OthersIn(vs) <==> v in ArraysIn(vs) || v in OthersIn(vs);
  }

  lemma {:induction false} ListsDiffer(vs: seq<Json>)
    requires !ArraysCompose(vs)
    ensures ArraysIn(vs) != [] && OthersIn(vs) != [] && !AllEqual(ArraysIn(vs))
  {
    PartsMembers(vs);
    var other :| other in vs && !other.Array?;
    var v, w :| v in vs && w in vs && v.Array? && w.Array? && v != w;
    assert v in ArraysIn(vs) && w in ArraysIn(vs) && other in OthersIn(vs);
  }

  lemma {:induction false} ArrayGroups(leafKey: string, vs: seq<Json>) returns (xs: seq<Json>, ys: seq<Json>)
    requires StringArraysOnly(vs) && !ArraysCompose(vs)
    ensures xs != [] && ys != [] && SameElements(xs + ys, vs) && !Composes(leafKey, xs, ys)
  {
    xs, ys := ArraysIn(vs), OthersIn(vs);
    PartsMembers(vs);
    ListsDiffer(vs);
    ListsFirst(leafKey, vs, xs, ys);
    if MergedValue(leafKey, xs + ys) == Union(vs) {
      NoTriadBesideLists(leafKey, xs, ys);
      UnionWins(leafKey, xs + ys, vs);
    }
  }

  lemma {:induction false} NoTriadBesideLists(leafKey: string, xs: seq<Json>, ys: seq<Json>)
    requires xs != [] && ys != [] && AllArrays(xs) && forall v | v in ys :: !v.Array?
    ensures !AllArrays(xs + ys) && !TriadOnTop(leafKey, xs + ys)
  {
    assert xs[0] in xs && ys[0] in ys;
    assert xs[0] in xs + ys && ys[0] in xs + ys;
  }

  lemma {:induction false} ListsFirst(leafKey: string, vs: seq<Json>, xs: seq<Json>, ys: seq<Json>)
    requires xs != [] && ys != [] && !AllEqual(xs)
    requires forall v | v in xs :: IsStringArray(v) && v in vs
    requires forall v | v in ys :: !v.Array? && Rank(v) >= 2
    requires forall v | v in vs && v.Array? :: v in xs
    ensures MergedValue(leafKey, [MergedValue(leafKey, xs), MergedValue(leafKey, ys)]) == Union(vs)
  {
    MergedStringArrays(xs);
    assert StringsOf(xs) == StringsOf(vs);
    FoldIsMember(leafKey, ys);
    assert ys[0] in ys;
    var u, m := Union(vs), FoldPick(leafKey, ys);
    MergedPair(leafKey, u, m);
    PickByRank(leafKey, u, m);
  }

  lemma {:induction false} UnionWins(leafKey: string, zs: seq<Json>, vs: seq<Json>)
    requires zs != [] && !AllArrays(zs) && !TriadOnTop(leafKey, zs) && MergedValue(leafKey, zs) == Union(vs)
    requires forall v :: v in zs <==> v in vs
    ensures UnionIsLeast(vs)
  {
    var u := Union(vs);
    FoldIsBest(leafKey, zs);
    forall x | x in vs && x.Array? ensures Le(Encode(u), Encode(x)) {
      LeTotal(Encode(x), Encode(x));
      assert Wins(leafKey, u, x);
    }
  }

  ghost predicate GroupingIndependent(leafKey: string, vs: seq<Json>) {
    forall xs: seq<Json>, ys: seq<Json> | xs != [] && ys != [] && SameElements(xs + ys, vs) :: Composes(leafKey, xs, ys)
  }

  lemma {:induction false} ComposableUnderReordering(leafKey: string, vs: seq<Json>, ws: seq<Json>)
    requires SameElements(ws, vs) && StringArraysOnly(vs) && Composable(leafKey, vs)
    ensures StringArraysOnly(ws) && Composable(leafKey, ws)
  {
    SameMembers(ws, vs);
    assert StringsOf(vs) == StringsOf(ws);
  }

  /** With string lists only, every way of merging in two groups gives the value of merging at once exactly when
      the contributions are composable. */
  lemma {:induction false} GroupingIndependentIffComposable(leafKey: string, vs: seq<Json>)
    requires StringArraysOnly(vs)
    ensures GroupingIndependent(leafKey, vs) <==> Composable(leafKey, vs)
  {
    if Composable(leafKey, vs) {
      forall xs: seq<Json>, ys: seq<Json> | xs != [] && ys != [] && SameElements(xs + ys, vs)
        ensures Composes(leafKey, xs, ys)
      {
        ComposableUnderReordering(leafKey, vs, xs + ys);
        ComposableIsEnough(leafKey, xs, ys);
      }
    } else if TriadOnTop(leafKey, vs) {
      var xs, ys := TriadGroups(leafKey, vs);
    } else {
      var xs, ys := ArrayGroups(leafKey, vs);
    }
  }
}
