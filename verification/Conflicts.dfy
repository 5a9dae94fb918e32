/** mergeContributions and its helpers, as the loops they are: the merged value of one path and whether its
    contributions conflict. */
module Conflicts {
  import opened Text
  import opened Json
  import opened Restrictive
  import opened Merging
  import opened RestrictiveWins

  datatype Contribution = Contribution(source: nat, value: Json)

  function ValuesOf(parts: seq<Contribution>): (vs: seq<Json>)
    ensures |vs| == |parts|
  {
    seq(|parts|, i requires 0 <= i < |parts| => parts[i].value)
  }

  function SourcesOf(parts: seq<Contribution>): set<nat> { set c | c in parts :: c.source }

  // ----- when contributions conflict -----

  function AbsReal(x: real): real { if x < 0.0 then -x else x }

  function MaxReal(x: real, y: real): real { if x < y then y else x }

  predicate NearlyEqual(a: Number, b: Number) {
    var x, y := Value(a), Value(b);
    AbsReal(x - y) <= 0.000000001 * MaxReal(1.0, MaxReal(AbsReal(x), AbsReal(y)))
  }

  predicate AllKind(vs: seq<Json>, kind: Kind) { forall v | v in vs :: KindOf(v) == kind }

  /** Numbers conflict if one is not within tolerance of the first; arrays if they differ and the first one lists
      strings only; everything else if not all are equal. */
  predicate Disagree(vs: seq<Json>)
    requires vs != []
  {
    if AllKind(vs, KindNumber) then exists v | v in vs :: v.Num? && vs[0].Num? && !NearlyEqual(v.n, vs[0].n)
    else if AllKind(vs, KindArray) then IsStringArray(vs[0]) && !AllEqual(vs)
    else !AllEqual(vs)
  }

  lemma {:induction false} NearlyEqualSelf(a: Number)
    ensures NearlyEqual(a, a)
  {
  }

  lemma {:induction false} NearlyEqualSymmetric(a: Number, b: Number)
    ensures NearlyEqual(a, b) <==> NearlyEqual(b, a)
  {
  }

  // ----- counting distinct values -----

  method UniqueBools(vals: seq<bool>) returns (n: nat)
    ensures n == (if true in vals then 1 else 0) + (if false in vals then 1 else 0)
  {
    var t, f := false, false;
    for i := 0 to |vals|
      invariant t <==> true in vals[..i]
      invariant f <==> false in vals[..i]
    {
      if vals[i] { t := true; } else { f := true; }
      assert vals[..i + 1] == vals[..i] + [vals[i]];
    }
    assert vals[..|vals|] == vals;
    n := 0;
    if t { n := n + 1; }
    if f { n := n + 1; }
  }

  predicate NearOneOf(v: Number, es: seq<Number>) { exists e | e in es :: NearlyEqual(v, e) }

  /** The values that are near none of the ones kept before them. */
  function Representatives(vals: seq<Number>): seq<Number> {
    if vals == [] then []
    else
      var kept := Representatives(vals[..|vals| - 1]);
      if NearOneOf(vals[|vals| - 1], kept) then kept else kept + [vals[|vals| - 1]]
  }

  /** Some value is out of tolerance of the first. */
  predicate SomeFar(vals: seq<Number>) { exists v | v in vals :: !NearlyEqual(v, vals[0]) }

  lemma {:induction false} SomeFarSnoc(vals: seq<Number>, v: Number)
    requires vals != []
    ensures SomeFar(vals + [v]) <==> SomeFar(vals) || !NearlyEqual(v, vals[0])
  {
    assert (vals + [v])[0] == vals[0] && v in vals + [v] && forall w | w in vals :: w in vals + [v];
  }

  lemma {:induction false} RepresentativesStep(kept: seq<Number>, v: Number, far: bool)
    requires kept != [] && (|kept| > 1 <==> far)
    ensures |if NearOneOf(v, kept) then kept else kept + [v]| > 1 <==> far || !NearlyEqual(v, kept[0])
  {
    assert kept[0] in kept;
    if |kept| == 1 { assert kept == [kept[0]]; }
  }

  /** There is more than one of them exactly if some value is out of tolerance of the first. */
  lemma {:induction false} ManyRepresentatives(vals: seq<Number>)
    ensures vals == [] <==> Representatives(vals) == []
    ensures vals != [] ==> Representatives(vals)[0] == vals[0]
    ensures |Representatives(vals)| > 1 <==> SomeFar(vals)
  {
    if |vals| == 1 {
      assert vals[..0] == [] && Representatives(vals) == [vals[0]];
      NearlyEqualSelf(vals[0]);
    } else if |vals| > 1 {
      var most, last := vals[..|vals| - 1], vals[|vals| - 1];
      ManyRepresentatives(most);
      assert vals == most + [last];
      RepresentativesStep(Representatives(most), last, SomeFar(most));
      SomeFarSnoc(most, last);
    }
  }

  method UniqueFloats(vals: seq<Number>) returns (n: nat)
    ensures n == |Representatives(vals)|
  {
    var uniq: seq<Number> := [];
    for i := 0 to |vals|
      invariant uniq == Representatives(vals[..i])
    {
      var v, found := vals[i], false;
      for j := 0 to |uniq|
        invariant found <==> NearOneOf(v, uniq[..j])
      {
        assert uniq[..j + 1] == uniq[..j] + [uniq[j]];
        if NearlyEqual(v, uniq[j]) {
          found := true;
          assert uniq[j] in uniq[..j + 1];
        }
      }
      assert uniq[..|uniq|] == uniq && vals[..i + 1][..i] == vals[..i];
      if !found {
        uniq := uniq + [v];
      }
    }
    n := |uniq|;
    assert vals[..|vals|] == vals;
  }

  method UniqueStrings(vals: seq<string>) returns (n: nat)
    ensures n == |set s | s in vals|
  {
    var m: set<string> := {};
    for i := 0 to |vals|
      invariant m == set s | s in vals[..i]
    {
      m := m + {vals[i]};
      assert vals[..i + 1] == vals[..i] + [vals[i]];
    }
    assert vals[..|vals|] == vals;
    n := |m|;
  }

  lemma {:induction false} ManyStrings(vals: seq<string>)
    requires vals != []
    ensures |set s | s in vals| > 1 <==> exists s | s in vals :: s != vals[0]
  {
    var m := set s | s in vals;
    assert vals[0] in m;
    if s :| s in vals && s != vals[0] {
      assert {s, vals[0]} <= m;
      SubsetSize({s, vals[0]}, m);
    } else {
      assert m == {vals[0]};
    }
  }

  lemma {:induction false} SubsetSize(a: set<string>, b: set<string>)
    requires a <= b
    ensures |a| <= |b|
  {
    assert b == a + (b - a);
  }

  // ----- the restrictive value of one kind -----

  method MergeBoolRestrictive(leafKey: string, vals: seq<bool>) returns (out: bool)
    ensures out == if Denies(leafKey) then true in vals else false !in vals
  {
    DeniesIff(leafKey);
    if DenyKey(leafKey) {
      out := false;
      for i := 0 to |vals|
        invariant out <==> true in vals[..i]
      {
        if vals[i] { out := true; }
        assert vals[..i + 1] == vals[..i] + [vals[i]];
      }
    } else {
      out := true;
      for i := 0 to |vals|
        invariant out <==> false !in vals[..i]
      {
        if !vals[i] { out := false; }
        assert vals[..i + 1] == vals[..i] + [vals[i]];
      }
    }
    assert vals[..|vals|] == vals;
  }

  method MergeNumericRestrictive(leafKey: string, vals: seq<Number>) returns (out: Number)
    requires vals != []
    ensures out in vals
    ensures HasPart(leafKey, "min_") ==> forall v | v in vals :: Value(v) <= Value(out)
    ensures !HasPart(leafKey, "min_") ==> forall v | v in vals :: Value(out) <= Value(v)
  {
    HasPartIff(leafKey, "min_");
    out := vals[0];
    if MinimumKey(leafKey) {
      for i := 1 to |vals|
        invariant out in vals && forall j | 0 <= j < i :: Value(vals[j]) <= Value(out)
      {
        if Value(vals[i]) > Value(out) { out := vals[i]; }
      }
    } else {
      for i := 1 to |vals|
        invariant out in vals && forall j | 0 <= j < i :: Value(out) <= Value(vals[j])
      {
        if Value(vals[i]) < Value(out) { out := vals[i]; }
      }
    }
  }

  /** Sorts its argument in place, so that callers see their contributions reordered. */
  method MergeStringRestrictive(vals: array<string>) returns (out: string)
    requires vals.Length > 0
    modifies vals
    ensures vals[..] == Sort(old(vals[..]))
    ensures out in old(vals[..]) && forall s | s in old(vals[..]) :: Le(out, s)
  {
    var before := vals[..];
    var sorted := Sort(before);
    assert |multiset(sorted)| == |sorted| && |multiset(before)| == |before|;
    forall i | 0 <= i < vals.Length {
      vals[i] := sorted[i];
    }
    assert vals[..] == sorted;
    out := vals[0];
    assert sorted[0] in multiset(sorted) && sorted[0] in before;
    forall s | s in before ensures Le(sorted[0], s) {
      assert s in multiset(sorted);
      HeadIsLeast(sorted, s);
    }
  }

  // ----- a kind's restrictive value is what folding the pairwise choice gives -----

  lemma {:induction false} BestIsFold(leafKey: string, vs: seq<Json>, w: Json)
    requires vs != [] && IsBest(leafKey, vs, w) && !Triad(leafKey, vs)
    ensures FoldPick(leafKey, vs) == w
  {
    FoldIsBest(leafKey, vs);
    BestUnique(leafKey, vs, FoldPick(leafKey, vs), w);
  }

  lemma {:induction false} BoolsFold(leafKey: string, vs: seq<Json>, out: bool)
    requires vs != [] && AllKind(vs, KindBool)
    requires out == if Denies(leafKey) then Bool(true) in vs else Bool(false) !in vs
    ensures MergedValue(leafKey, vs) == Bool(out)
  {
    BoolsMerge(leafKey, vs);
  }

  lemma {:induction false} NumbersFold(leafKey: string, vs: seq<Json>, out: Number)
    requires vs != [] && AllKind(vs, KindNumber) && Num(out) in vs
    requires HasPart(leafKey, "min_") ==> forall v | v in vs && v.Num? :: Value(v.n) <= Value(out)
    requires !HasPart(leafKey, "min_") ==> forall v | v in vs && v.Num? :: Value(out) <= Value(v.n)
    ensures MergedValue(leafKey, vs) == Num(out)
  {
    NumbersMerge(leafKey, vs);
    ValueInjective(MergedValue(leafKey, vs).n, out);
  }

  lemma {:induction false} StringsFold(leafKey: string, vs: seq<Json>, out: string)
    requires vs != [] && AllKind(vs, KindString) && String(out) in vs
    requires forall v | v in vs && v.String? :: Le(out, v.s)
    ensures MergedValue(leafKey, vs) == String(out)
  {
    assert vs[0] in vs;
    BestIsFold(leafKey, vs, String(out));
  }

  lemma {:induction false} SameFold(leafKey: string, vs: seq<Json>)
    requires vs != [] && AllEqual(vs)
    ensures MergedValue(leafKey, vs) == vs[0]
  {
    FoldIsMember(leafKey, vs);
  }

  // ----- merging the contributions to one path -----

  method ContributedNormalizedSlice(parts: seq<Contribution>) returns (out: seq<Json>)
    ensures out == ValuesOf(parts)
  {
    out := [];
    for i := 0 to |parts|
      invariant out == ValuesOf(parts[..i])
    {
      out := out + [parts[i].value];
      assert parts[..i + 1] == parts[..i] + [parts[i]];
    }
    assert parts[..|parts|] == parts;
  }

  method RestrictivePickMixed(leafKey: string, parts: seq<Contribution>) returns (out: Json)
    requires parts != []
    ensures out == FoldPick(leafKey, ValuesOf(parts))
  {
    var nv := ContributedNormalizedSlice(parts);
    out := nv[0];
    assert nv[..1] == [nv[0]];
    for i := 1 to |nv|
      invariant out == FoldPick(leafKey, nv[..i])
    {
      out := Pick(leafKey, out, nv[i]);
      assert nv[..i + 1] == nv[..i] + [nv[i]];
      FoldAppend(leafKey, nv[..i], nv[i]);
    }
    assert nv[..|nv|] == nv;
  }

  method ConflictParticipants(parts: seq<Contribution>) returns (out: set<nat>)
    ensures out == SourcesOf(parts) - {0}
  {
    out := {};
    for i := 0 to |parts|
      invariant out == SourcesOf(parts[..i]) - {0}
    {
      if parts[i].source != 0 { out := out + {parts[i].source}; }
      assert parts[..i + 1] == parts[..i] + [parts[i]];
    }
    assert parts[..|parts|] == parts;
  }

  /** Strings of an array up to its first non-string element, each recorded once. */
  method ScanStrings(arr: seq<Json>, seen: set<string>, union: seq<string>)
    returns (allStrings: bool, seen': set<string>, union': seq<string>)
    requires Distinct(union) && seen == set s | s in union
    ensures allStrings <==> IsStringArray(Array(arr))
    ensures Distinct(union') && seen' == set s | s in union'
    ensures allStrings ==> seen' == seen + StringsOf([Array(arr)])
  {
    allStrings, seen', union' := true, seen, union;
    var i := 0;
    while i < |arr|
      invariant i <= |arr|
      invariant Distinct(union') && seen' == set s | s in union'
      invariant allStrings
      invariant IsStringArray(Array(arr[..i])) && seen' == seen + StringsOf([Array(arr[..i])])
    {
      if !arr[i].String? {
        allStrings := false;
        assert arr[i] in arr;
        return;
      }
      var s := arr[i].s;
      if s !in seen' {
        seen', union' := seen' + {s}, union' + [s];
      }
      ListGrows(arr[..i], arr[i]);
      assert arr[..i + 1] == arr[..i] + [arr[i]];
      i := i + 1;
    }
    assert arr[..|arr|] == arr;
  }

  lemma {:induction false} ListGrows(arr: seq<Json>, x: Json)
    requires x.String?
    ensures StringsOf([Array(arr + [x])]) == StringsOf([Array(arr)]) + {x.s}
  {
    var a, b := Array(arr), Array(arr + [x]);
    assert forall y :: y in b.elems <==> y in a.elems || y == x;
    assert a in [a] && b in [b];
    assert forall v | v in [a] :: v == a;
    assert forall v | v in [b] :: v == b;
  }

  lemma {:induction false} SortedUnion(union: seq<string>, ks: set<string>)
    requires Distinct(union) && ks == set s | s in union
    ensures Sort(union) == SortedKeys(ks)
  {
    var t := SortedKeys(ks);
    DistinctElements(union, t);
    SortedUnique(Sort(union), t);
  }

  lemma {:induction false} DistinctElements(s: seq<string>, t: seq<string>)
    requires Distinct(s) && Distinct(t) && forall x :: x in s <==> x in t
    ensures multiset(s) == multiset(t)
  {
    DistinctCounts(s);
    DistinctCounts(t);
  }

  lemma {:induction false} DistinctCounts(s: seq<string>)
    requires Distinct(s)
    ensures forall x :: multiset(s)[x] == if x in s then 1 else 0
  {
    if s != [] {
      HeadOnly(s);
      DistinctCounts(s[1..]);
      assert s == [s[0]] + s[1..];
    }
  }

  lemma {:induction false} HeadOnly(s: seq<string>)
    requires s != [] && Distinct(s)
    ensures s[0] !in s[1..] && Distinct(s[1..])
  {
  }

  /** mergeArrayRestrictive: the arrays are scanned until the first non-string element. */
  method MergeArrayRestrictive(parts: seq<Contribution>) returns (effective: Json, conflict: bool)
    requires parts != [] && AllKind(ValuesOf(parts), KindArray)
    ensures effective == MergedArrays(ValuesOf(parts)) && conflict == Disagree(ValuesOf(parts))
  {
    ghost var vs := ValuesOf(parts);
    assert forall i | 0 <= i < |parts| :: vs[i] in vs && parts[i].value.Array?;
    var first := parts[0].value;
    var union: seq<string>, seen: set<string> := [], {};
    var allStrings, i := true, 0;
    conflict := false;
    while i < |parts| && allStrings
      invariant i <= |parts| && Distinct(union) && seen == set s | s in union
      invariant conflict <==> exists j | 0 <= j < i :: vs[j] != first
      invariant allStrings ==> (forall j | 0 <= j < i :: IsStringArray(vs[j])) && seen == StringsOf(vs[..i])
      invariant !allStrings ==> 0 < i && !IsStringArray(vs[i - 1]) && (i > 1 ==> IsStringArray(vs[0]))
      decreases |parts| - i, if allStrings then 1 else 0
    {
      var arr := parts[i].value;
      if arr != first { conflict := true; }
      allStrings, seen, union := ScanStrings(arr.elems, seen, union);
      assert vs[..i + 1] == vs[..i] + [arr];
      ConcatStrings(vs[..i], [arr]);
      assert Array(arr.elems) == arr;
      i := i + 1;
    }
    ScanFindsConflict(vs, i, allStrings, conflict);
    if allStrings && conflict {
      assert vs[..i] == vs;
      SortedUnion(union, StringsOf(vs));
      effective := ArrayOf(Sort(union));
    } else if !conflict {
      effective := first;
    } else {
      assert !IsStringArray(vs[i - 1]) && vs[i - 1] in vs;
      effective := RestrictivePickMixed("", parts);
    }
  }

  /** The part of the arrays that was looked at settles whether they conflict. */
  lemma {:induction false} ScanFindsConflict(vs: seq<Json>, i: nat, allStrings: bool, conflict: bool)
    requires vs != [] && AllKind(vs, KindArray) && i <= |vs| && (allStrings ==> i == |vs|)
    requires conflict <==> exists j | 0 <= j < i :: vs[j] != vs[0]
    requires allStrings ==> forall j | 0 <= j < i :: IsStringArray(vs[j])
    requires !allStrings ==> 0 < i && !IsStringArray(vs[i - 1]) && (i > 1 ==> IsStringArray(vs[0]))
    ensures conflict == Disagree(vs)
    ensures !conflict ==> AllEqual(vs) || !IsStringArray(vs[0])
    ensures conflict ==> !AllEqual(vs) && IsStringArray(vs[0])
    ensures allStrings ==> forall v | v in vs :: IsStringArray(v)
  {
    assert vs[0] in vs && KindOf(vs[0]) == KindArray;
    if conflict {
      var j :| 0 <= j < i && vs[j] != vs[0];
      assert vs[j] in vs;
    }
    if !allStrings { assert vs[i - 1] in vs; }
  }

  // ----- what a conflict is -----

  /** Apart by no more than a billionth of 1, of the one or of the other, whichever is largest. */
  predicate Near(x: real, y: real) {
    var d := if x < y then y - x else x - y;
    || d <= 0.000000001
    || d <= 0.000000001 * x || d <= 0.000000001 * -x
    || d <= 0.000000001 * y || d <= 0.000000001 * -y
  }

  lemma {:induction false} NearIff(a: Number, b: Number)
    ensures NearlyEqual(a, b) <==> Near(Value(a), Value(b))
  {
  }

  /** Two contributions of different kinds; true and false; a number that is not near the first one; a string, or a list
      beside a first list of strings, that differs from the first. */
  predicate ConflictsPlainly(vs: seq<Json>) {
    || (exists v, w | v in vs && w in vs :: v.Null? != w.Null? || v.Bool? != w.Bool? || v.Num? != w.Num?
                                            || v.String? != w.String? || v.Array? != w.Array?)
    || (Bool(true) in vs && Bool(false) in vs)
    || (exists v | v in vs :: v.Num? && vs[0].Num? && !Near(Value(v.n), Value(vs[0].n)))
    || (exists v | v in vs :: v.String? && vs[0].String? && v.s != vs[0].s)
    || (exists v | v in vs :: v.Array? && IsStringArray(vs[0]) && v != vs[0])
  }

  lemma {:induction false} DisagreeIff(parts: seq<Contribution>)
    requires parts != [] && LeafParts(parts)
    ensures Disagree(ValuesOf(parts)) <==> ConflictsPlainly(ValuesOf(parts))
  {
    var vs := ValuesOf(parts);
    forall v | v in vs ensures IsLeaf(v) {
      var i :| 0 <= i < |vs| && vs[i] == v;
      assert parts[i] in parts;
    }
    assert vs[0] in vs;
    if AllKind(vs, KindOf(vs[0])) {
      SameKindsDisagreeIff(vs);
    } else {
      var v :| v in vs && KindOf(v) != KindOf(vs[0]);
      assert v.Null? != vs[0].Null? || v.Bool? != vs[0].Bool? || v.Num? != vs[0].Num?
          || v.String? != vs[0].String? || v.Array? != vs[0].Array?;
    }
  }

  lemma {:induction false} SameKindsDisagreeIff(vs: seq<Json>)
    requires vs != [] && AllKind(vs, KindOf(vs[0])) && forall v | v in vs :: IsLeaf(v)
    ensures Disagree(vs) <==> ConflictsPlainly(vs)
  {
    assert vs[0] in vs && forall v | v in vs :: KindOf(v) == KindOf(vs[0]);
    match vs[0]
    case Num(n) => forall v | v in vs ensures NearlyEqual(v.n, n) <==> Near(Value(v.n), Value(n)) { NearIff(v.n, n); }
    case Bool(b) => BoolsDisagree(vs);
    case _ =>
  }

  predicate LeafParts(parts: seq<Contribution>) { forall c | c in parts :: IsLeaf(c.value) }

  function Texts(vs: seq<Json>): seq<string>
    requires AllKind(vs, KindString)
  {
    seq(|vs|, i requires 0 <= i < |vs| => (assert vs[i] in vs; vs[i].s))
  }

  /** The contributed values as they are reported: in the order of the profiles, except that the sort in place leaves
      conflicting strings in ascending order. */
  function Reported(vs: seq<Json>): seq<Json>
    requires vs != []
  {
    if AllKind(vs, KindString) && Disagree(vs) then AsStrings(Sort(Texts(vs))) else vs
  }

  /** The values as they were contributed, except that conflicting strings come in ascending order. */
  predicate IsReport(vs: seq<Json>, conflict: bool, norms: seq<Json>) {
    && multiset(norms) == multiset(vs)
    && if conflict && Strings(vs)
       then Strings(norms) && forall i, j | 0 <= i < j < |norms| :: Le(norms[i].s, norms[j].s)
       else norms == vs
  }

  lemma {:induction false} ReportedMeans(vs: seq<Json>)
    requires vs != []
    ensures IsReport(vs, Disagree(vs), Reported(vs))
  {
    ReportedIsPermutation(vs);
    assert AllKind(vs, KindString) <==> Strings(vs);
    if AllKind(vs, KindString) && Disagree(vs) {
      var t := Sort(Texts(vs));
      assert Reported(vs) == AsStrings(t);
      forall i | 0 <= i < |t| ensures AsStrings(t)[i] == String(t[i]) { }
    }
  }

  lemma {:induction false} ReportedIsPermutation(vs: seq<Json>)
    requires vs != []
    ensures multiset(Reported(vs)) == multiset(vs)
  {
    if AllKind(vs, KindString) && Disagree(vs) {
      assert forall i | 0 <= i < |vs| :: vs[i] in vs;
      assert AsStrings(Texts(vs)) == vs;
      SameStrings(Sort(Texts(vs)), Texts(vs));
    }
  }

  /** mergeContributions. The values are the leaves a flattened payload consists of, so two objects at one path
      are both empty and the branch that would merge object members is never taken. */
  method MergeContributions(leafKey: string, parts: seq<Contribution>)
    returns (effective: Json, conflict: bool, participants: set<nat>, norms: seq<Json>)
    requires parts != [] && LeafParts(parts)
    ensures effective == MergedValue(leafKey, ValuesOf(parts))
    ensures conflict <==> Disagree(ValuesOf(parts))
    ensures conflict <==> ConflictsPlainly(ValuesOf(parts))
    ensures conflict ==> participants == SourcesOf(parts) - {0}
    ensures norms == Reported(ValuesOf(parts)) && IsReport(ValuesOf(parts), conflict, norms)
  {
    ghost var vs := ValuesOf(parts);
    DisagreeIff(parts);
    ReportedMeans(vs);
    norms := ContributedNormalizedSlice(parts);
    participants := {};
    if |parts| == 1 {
      effective, conflict := parts[0].value, false;
      SameFold(leafKey, vs);
      if vs[0].Num? { NearlyEqualSelf(vs[0].n); }
      return;
    }
    var firstKind := KindOf(parts[0].value);
    var allSameKind := true;
    var i := 1;
    while i < |parts| && allSameKind
      invariant 1 <= i <= |parts|
      invariant allSameKind ==> forall j | 0 <= j < i :: KindOf(vs[j]) == firstKind
      invariant !allSameKind ==> exists j | 0 <= j < i :: KindOf(vs[j]) != firstKind
    {
      assert vs[i] == parts[i].value;
      if KindOf(parts[i].value) != firstKind {
        allSameKind := false;
      }
      i := i + 1;
    }
    participants := ConflictParticipants(parts);
    if !allSameKind {
      MixedKinds(leafKey, vs);
      effective := RestrictivePickMixed(leafKey, parts);
      conflict := true;
      return;
    }
    assert AllKind(vs, firstKind);
    match firstKind
    case KindBool => effective, conflict := MergeBools(leafKey, parts);
    case KindNumber => effective, conflict := MergeNumbers(leafKey, parts);
    case KindString =>
      effective, conflict, norms := MergeStrings(leafKey, parts);
    case KindArray =>
      effective, conflict := MergeArrayRestrictive(parts);
      assert AllArrays(vs);
    case KindObject =>
      EmptyObjectsAgree(parts);
      SameFold(leafKey, vs);
      effective, conflict := parts[0].value, false;
    case KindUnknown =>
      assert AllEqual(vs);
      SameFold(leafKey, vs);
      effective := RestrictivePickMixed(leafKey, parts);
      FoldIsMember(leafKey, vs);
      conflict := false;
  }

  lemma {:induction false} MixedKinds(leafKey: string, vs: seq<Json>)
    requires vs != [] && exists j | 0 <= j < |vs| :: KindOf(vs[j]) != KindOf(vs[0])
    ensures MergedValue(leafKey, vs) == FoldPick(leafKey, vs) && Disagree(vs)
  {
    var j :| 0 <= j < |vs| && KindOf(vs[j]) != KindOf(vs[0]);
    assert vs[j] in vs && vs[0] in vs;
  }

  /** Two objects that reach the table are equal. */
  lemma {:induction false} EmptyObjectsAgree(parts: seq<Contribution>)
    requires LeafParts(parts) && AllKind(ValuesOf(parts), KindObject)
    ensures AllEqual(ValuesOf(parts))
  {
    var vs := ValuesOf(parts);
    forall i | 0 <= i < |vs| ensures vs[i] == EmptyObject {
      assert vs[i] in vs && parts[i] in parts;
    }
  }

  method MergeBools(leafKey: string, parts: seq<Contribution>) returns (effective: Json, conflict: bool)
    requires parts != [] && AllKind(ValuesOf(parts), KindBool)
    ensures effective == MergedValue(leafKey, ValuesOf(parts)) && conflict == Disagree(ValuesOf(parts))
  {
    ghost var vs := ValuesOf(parts);
    var vals := BoolsOf(parts);
    var n := UniqueBools(vals);
    var out := MergeBoolRestrictive(leafKey, vals);
    effective, conflict := Bool(out), n > 1;
    BoolsFold(leafKey, vs, out);
    BoolsDisagree(vs);
  }

  method BoolsOf(parts: seq<Contribution>) returns (vals: seq<bool>)
    requires AllKind(ValuesOf(parts), KindBool)
    ensures |vals| == |parts| && forall b :: b in vals <==> Bool(b) in ValuesOf(parts)
  {
    ghost var vs := ValuesOf(parts);
    vals := [];
    for i := 0 to |parts|
      invariant |vals| == i && forall j | 0 <= j < i :: vs[j] == Bool(vals[j])
    {
      assert vs[i] in vs;
      vals := vals + [parts[i].value.b];
    }
    assert forall j | 0 <= j < |vals| :: vs[j] in vs && vals[j] in vals;
  }

  lemma {:induction false} BoolsDisagree(vs: seq<Json>)
    requires vs != [] && AllKind(vs, KindBool)
    ensures Disagree(vs) <==> Bool(true) in vs && Bool(false) in vs
  {
    assert vs[0] in vs;
  }

  method MergeNumbers(leafKey: string, parts: seq<Contribution>) returns (effective: Json, conflict: bool)
    requires parts != [] && AllKind(ValuesOf(parts), KindNumber)
    ensures effective == MergedValue(leafKey, ValuesOf(parts)) && conflict == Disagree(ValuesOf(parts))
  {
    ghost var vs := ValuesOf(parts);
    var vals: seq<Number> := [];
    for i := 0 to |parts|
      invariant |vals| == i && forall j | 0 <= j < i :: vs[j] == Num(vals[j])
    {
      assert vs[i] in vs;
      vals := vals + [parts[i].value.n];
    }
    var n := UniqueFloats(vals);
    ManyRepresentatives(vals);
    var out := MergeNumericRestrictive(leafKey, vals);
    effective, conflict := Num(out), n > 1;
    assert forall x :: x in vals <==> Num(x) in vs by {
      assert forall j | 0 <= j < |vals| :: vs[j] in vs && vals[j] in vals;
    }
    NumbersFold(leafKey, vs, out);
    assert vs[0] == Num(vals[0]) && vs[0] in vs;
  }

  /** The strings are sorted in place before they are reported. */
  method MergeStrings(leafKey: string, parts: seq<Contribution>)
    returns (effective: Json, conflict: bool, norms: seq<Json>)
    requires parts != [] && AllKind(ValuesOf(parts), KindString)
    ensures effective == MergedValue(leafKey, ValuesOf(parts)) && conflict == Disagree(ValuesOf(parts))
    ensures norms == Reported(ValuesOf(parts))
  {
    ghost var vs := ValuesOf(parts);
    var strs := StringsIn(parts);
    ghost var given := strs[..];
    StringsMembers(given);
    StringsDisagree(given);
    ManyStrings(given);
    assert Texts(vs) == given;
    var n := UniqueStrings(strs[..]);
    conflict := n > 1;
    if conflict {
      var out := MergeStringRestrictive(strs);
      effective := String(out);
      StringsFold(leafKey, vs, out);
    } else {
      effective := String(strs[0]);
      SameFold(leafKey, vs);
    }
    norms := AsStrings(strs[..]);
  }

  method StringsIn(parts: seq<Contribution>) returns (strs: array<string>)
    requires AllKind(ValuesOf(parts), KindString)
    ensures fresh(strs) && AsStrings(strs[..]) == ValuesOf(parts)
  {
    ghost var vs := ValuesOf(parts);
    strs := new string[|parts|];
    for i := 0 to |parts|
      invariant forall j | 0 <= j < i :: vs[j] == String(strs[j])
    {
      assert vs[i] in vs;
      strs[i] := parts[i].value.s;
    }
  }

  lemma {:induction false} StringsDisagree(ss: seq<string>)
    requires ss != []
    ensures AllKind(AsStrings(ss), KindString)
    ensures Disagree(AsStrings(ss)) <==> exists s | s in ss :: s != ss[0]
    ensures !Disagree(AsStrings(ss)) ==> AllEqual(AsStrings(ss))
  {
    StringsMembers(ss);
    var vs := AsStrings(ss);
    assert vs[0] in vs && vs[0] == String(ss[0]);
  }

  function AsStrings(ss: seq<string>): seq<Json> {
    seq(|ss|, i requires 0 <= i < |ss| => String(ss[i]))
  }

  lemma {:induction false} StringsMembers(ss: seq<string>)
    ensures forall s :: s in ss <==> String(s) in AsStrings(ss)
  {
    assert forall j | 0 <= j < |ss| :: AsStrings(ss)[j] in AsStrings(ss) && ss[j] in ss;
  }

  lemma {:induction false} SameStrings(a: seq<string>, b: seq<string>)
    requires multiset(a) == multiset(b)
    ensures multiset(AsStrings(a)) == multiset(AsStrings(b))
  {
    forall v ensures multiset(AsStrings(a))[v] == multiset(AsStrings(b))[v] {
      StringCount(a, v);
      StringCount(b, v);
    }
  }

  lemma {:induction false} StringCount(a: seq<string>, v: Json)
    ensures multiset(AsStrings(a))[v] == if v.String? then multiset(a)[v.s] else 0
  {
    if a != [] {
      StringCount(a[1..], v);
      assert a == [a[0]] + a[1..];
      assert AsStrings(a) == [String(a[0])] + AsStrings(a[1..]);
    }
  }
}
