/** When contributions to one path can be merged in groups, for lists with elements of any kind. */
module Grouping {
  import opened Text
  import opened Json
  import opened JsonText
  import opened Restrictive
  import opened Merging

  predicate NonStringList(v: Json) { v.Array? && !IsStringArray(v) }

  predicate HasNonString(vs: seq<Json>) { exists v | v in vs :: NonStringList(v) }

  /** All lists that hold something other than strings are this one. */
  predicate OnlyNonString(vs: seq<Json>, n: Json) {
    n in vs && NonStringList(n) && forall v | v in vs && NonStringList(v) :: v == n
  }

  predicate StringLists(vs: seq<Json>) { forall v | v in vs :: IsStringArray(v) }

  /** The text of n sorts before that of whatever some of the string lists merge to. */
  ghost predicate BelowUnions(vs: seq<Json>, n: Json) {
    forall ts: seq<Json> | ts != [] && StringLists(ts) && multiset(ts) <= multiset(vs) ::
      Le(Encode(n), Encode(MergedArrays(ts)))
  }

  ghost predicate NonStringLeast(vs: seq<Json>) { exists n | n in vs :: OnlyNonString(vs, n) && BelowUnions(vs, n) }

  /** All string lists are this one, and its text is the least of all. */
  predicate OnlyString(vs: seq<Json>, s: Json) {
    IsStringArray(s) && IsTextLeast(s, vs) && forall v | v in vs && IsStringArray(v) :: v == s
  }

  /** The condition, on the contributions alone, for every grouping to give the same value. */
  ghost predicate GroupsWell(leafKey: string, vs: seq<Json>) {
    if !HasNonString(vs) then Composable(leafKey, vs)
    else if AllArrays(vs) then
      (forall v | v in vs :: NonStringList(v)) || (exists s | s in vs :: OnlyString(vs, s)) || NonStringLeast(vs)
    else (exists v | v in vs :: Rank(v) < 2) || NonStringLeast(vs)
  }

  // ----- groups that compose -----

  lemma {:induction false} SingleBelow(vs: seq<Json>, n: Json, s: Json)
    requires BelowUnions(vs, n) && s in vs && IsStringArray(s)
    ensures Le(Encode(n), Encode(s))
  {
    var ts := [s];
    assert multiset(ts) <= multiset(vs) && ts[0] == s;
    assert MergedArrays(ts) == s;
  }

  /** A group of lists, in whatever order, merges to n if it holds n, and to a string list above n if not. */
  lemma {:induction false} ListGroup(vs: seq<Json>, us: seq<Json>, n: Json)
    requires OnlyNonString(vs, n) && BelowUnions(vs, n)
    requires us != [] && AllArrays(us) && multiset(us) <= multiset(vs)
    ensures n in us ==> MergedArrays(us) == n
    ensures n !in us ==> IsStringArray(MergedArrays(us)) && Le(Encode(n), Encode(MergedArrays(us)))
  {
    MembersOfPart(vs, us);
    assert us[0] in us;
    if n in us {
      if IsStringArray(us[0]) {
        forall v | v in us ensures Le(Encode(n), Encode(v)) {
          if IsStringArray(v) { SingleBelow(vs, n, v); } else { LeTotal(Encode(n), Encode(n)); }
        }
        FoldIsTextLeast(us);
        TextLeastUnique(us, FoldPick("", us), n);
      }
    } else {
      MergedArrayStrings(us);
    }
  }

  lemma {:induction false} MembersOfPart(vs: seq<Json>, us: seq<Json>)
    requires multiset(us) <= multiset(vs)
    ensures forall v | v in us :: v in vs
  {
    assert forall v | v in us :: v in multiset(us) && multiset(us)[v] <= multiset(vs)[v];
  }

  /** Merging two groups' results, one of which is n. */
  lemma {:induction false} PairWithLeast(leafKey: string, mx: Json, my: Json, n: Json)
    requires NonStringList(n) && (mx == n || my == n)
    requires forall m | m == mx || m == my ::
      m == n || (IsStringArray(m) && Le(Encode(n), Encode(m))) || Rank(m) > 2
    ensures MergedValue(leafKey, [mx, my]) == n
  {
    if mx.Array? && my.Array? {
      var pair := [mx, my];
      assert pair[0] == mx && pair[1] == my && forall v | v in pair :: v == mx || v == my;
      if mx != n {
        assert n in pair && !AllEqual(pair);
        LeTotal(Encode(n), Encode(n));
        FoldIsTextLeast(pair);
        assert IsTextLeast(n, pair);
        TextLeastUnique(pair, FoldPick("", pair), n);
      } else {
        assert MergedArrays(pair) == n;
      }
    } else {
      forall m | m == mx || m == my ensures Wins(leafKey, n, m) {
        if m != n { PickByRank(leafKey, n, m); } else { PickCommutes(leafKey, n, n); }
      }
      PairMerges(leafKey, mx, my, n);
    }
  }

  /** A group that may hold other kinds, when nothing outranks lists. */
  lemma {:induction false} MixedGroup(leafKey: string, vs: seq<Json>, us: seq<Json>, n: Json)
    requires OnlyNonString(vs, n) && BelowUnions(vs, n) && forall v | v in vs :: Rank(v) >= 2
    requires us != [] && multiset(us) <= multiset(vs)
    ensures var m := MergedValue(leafKey, us);
      (n in us ==> m == n) && (m == n || (IsStringArray(m) && Le(Encode(n), Encode(m))) || Rank(m) > 2)
  {
    MembersOfPart(vs, us);
    if AllArrays(us) {
      ListGroup(vs, us, n);
    } else if n in us {
      BestIsLeastList(leafKey, vs, us, n);
    } else {
      FoldIsMember(leafKey, us);
      var m := FoldPick(leafKey, us);
      if IsStringArray(m) { SingleBelow(vs, n, m); }
    }
  }

  lemma {:induction false} BestIsLeastList(leafKey: string, vs: seq<Json>, us: seq<Json>, n: Json)
    requires OnlyNonString(vs, n) && BelowUnions(vs, n) && (forall v | v in vs :: Rank(v) >= 2)
    requires n in us && forall v | v in us :: v in vs
    ensures FoldPick(leafKey, us) == n
  {
    FoldIsBest(leafKey, us);
    forall v | v in us ensures Wins(leafKey, n, v) {
      if v == n {
        PickCommutes(leafKey, n, n);
      } else if v.Array? {
        SingleBelow(vs, n, v);
      } else {
        PickByRank(leafKey, n, v);
      }
    }
    BestUnique(leafKey, us, FoldPick(leafKey, us), n);
  }

  lemma {:induction false} LeastComposes(leafKey: string, xs: seq<Json>, ys: seq<Json>, n: Json)
    requires xs != [] && ys != [] && OnlyNonString(xs + ys, n) && BelowUnions(xs + ys, n)
    requires forall v | v in xs + ys :: Rank(v) >= 2
    ensures Composes(leafKey, xs, ys)
  {
    var zs := xs + ys;
    MixedGroup(leafKey, zs, xs, n);
    MixedGroup(leafKey, zs, ys, n);
    MixedGroup(leafKey, zs, zs, n);
    assert n in xs || n in ys;
    PairWithLeast(leafKey, MergedValue(leafKey, xs), MergedValue(leafKey, ys), n);
  }

  /** If the first of any lists wins, groups compose. */
  lemma {:induction false} FirstWins(vs: seq<Json>, us: seq<Json>)
    requires us != [] && AllArrays(vs) && (forall v | v in us :: v in vs)
    requires (forall v | v in vs :: NonStringList(v)) || (exists s | s in vs :: OnlyString(vs, s))
    ensures MergedArrays(us) == us[0]
  {
    assert us[0] in us;
    if IsStringArray(us[0]) && !AllEqual(us) {
      var s :| s in vs && OnlyString(vs, s);
      assert us[0] == s;
      FoldIsTextLeast(us);
      TextLeastUnique(us, FoldPick("", us), s);
    }
  }

  lemma {:induction false} GroupsWellIsEnough(leafKey: string, xs: seq<Json>, ys: seq<Json>)
    requires xs != [] && ys != [] && GroupsWell(leafKey, xs + ys)
    ensures Composes(leafKey, xs, ys)
  {
    var zs := xs + ys;
    if !HasNonString(zs) {
      ComposableIsEnough(leafKey, xs, ys);
    } else if AllArrays(zs) && !NonStringLeast(zs) {
      FirstComposes(leafKey, xs, ys);
    } else if v :| v in zs && Rank(v) < 2 {
      ScalarComposes(leafKey, xs, ys, v);
    } else {
      var n :| n in zs && OnlyNonString(zs, n) && BelowUnions(zs, n);
      LeastComposes(leafKey, xs, ys, n);
    }
  }

  lemma {:induction false} FirstComposes(leafKey: string, xs: seq<Json>, ys: seq<Json>)
    requires xs != [] && ys != [] && AllArrays(xs + ys)
    requires (forall v | v in xs + ys :: NonStringList(v)) || (exists s | s in xs + ys :: OnlyString(xs + ys, s))
    ensures Composes(leafKey, xs, ys)
  {
    var zs := xs + ys;
    assert (forall v | v in xs :: v in zs) && forall v | v in ys :: v in zs;
    FirstWins(zs, xs);
    FirstWins(zs, ys);
    FirstWins(zs, zs);
    assert xs[0] in xs && ys[0] in ys;
    var pair := [xs[0], ys[0]];
    assert forall v | v in pair :: v in zs;
    FirstWins(zs, pair);
  }

  lemma {:induction false} ScalarComposes(leafKey: string, xs: seq<Json>, ys: seq<Json>, v: Json)
    requires xs != [] && ys != [] && v in xs + ys && Rank(v) < 2
    ensures Composes(leafKey, xs, ys)
  {
    var zs := xs + ys;
    assert (forall v | v in xs :: v in zs) && forall v | v in ys :: v in zs;
    FoldIsBest(leafKey, zs);
    var w := FoldPick(leafKey, zs);
    if Rank(w) >= 2 { PickByRank(leafKey, w, v); }
    GroupUnderScalar(leafKey, zs, xs, w);
    GroupUnderScalar(leafKey, zs, ys, w);
    PairMerges(leafKey, MergedValue(leafKey, xs), MergedValue(leafKey, ys), w);
  }

  // ----- groups that do not compose -----

  lemma {:induction false} TheRest(vs: seq<Json>, us: seq<Json>) returns (rest: seq<Json>)
    requires multiset(us) <= multiset(vs)
    ensures SameElements(us + rest, vs)
    decreases |us|
  {
    if us == [] {
      rest := vs;
      assert us + rest == vs;
    } else {
      assert us == [us[0]] + us[1..];
      assert us[0] in multiset(us);
      var less := Remove(vs, us[0]);
      assert multiset(less + [us[0]]) == multiset(less) + multiset{us[0]};
      assert multiset(us) == multiset{us[0]} + multiset(us[1..]);
      assert multiset(us) <= multiset(less) + multiset{us[0]};
      forall v ensures multiset(us[1..])[v] <= multiset(less)[v] {
        assert multiset(us)[v] <= (multiset(less) + multiset{us[0]})[v];
      }
      rest := TheRest(less, us[1..]);
      assert us + rest == [us[0]] + (us[1..] + rest);
    }
  }

  lemma {:induction false} PairBelow(leafKey: string, u: Json, n: Json)
    requires IsStringArray(u) && NonStringList(n) && !Le(Encode(n), Encode(u))
    ensures MergedValue(leafKey, [u, n]) == u
  {
    var pair := [u, n];
    assert pair[0] == u && pair[1] == n && n in pair && !AllEqual(pair);
    LeTotal(Encode(n), Encode(u));
    LeTotal(Encode(u), Encode(u));
    FoldIsTextLeast(pair);
    assert IsTextLeast(u, pair);
    TextLeastUnique(pair, FoldPick("", pair), u);
  }

  /** Lists of both sorts, a string list first, merge to the least of them. */
  lemma {:induction false} StringFirst(vs: seq<Json>, zs: seq<Json>, least: Json)
    requires SameElements(zs, vs) && AllArrays(vs) && HasNonString(vs) && IsTextLeast(least, vs)
    requires zs != [] && IsStringArray(zs[0])
    ensures MergedArrays(zs) == least
  {
    SameMembers(zs, vs);
    assert !AllEqual(zs);
    FoldIsTextLeast(zs);
    TextLeastUnique(zs, FoldPick("", zs), least);
  }

  lemma {:induction false} StringBesideLeast(vs: seq<Json>, least: Json) returns (s: Json)
    requires AllArrays(vs) && !(forall v | v in vs :: NonStringList(v))
    requires !(exists s | s in vs :: OnlyString(vs, s)) && IsTextLeast(least, vs)
    ensures s in vs && IsStringArray(s) && s != least
  {
    if IsStringArray(least) {
      s :| s in vs && IsStringArray(s) && s != least;
    } else {
      s :| s in vs && !NonStringList(s);
    }
  }

  lemma {:induction false} PairIsOne(leafKey: string, a: Json, b: Json)
    requires a.Array? && NonStringList(b)
    ensures MergedValue(leafKey, [a, b]) == a || MergedValue(leafKey, [a, b]) == b
  {
    var pair := [a, b];
    assert pair[0] == a && pair[1] == b && b in pair;
    FoldIsMember("", pair);
  }

  /** A string list alone, and a list of another sort in front of all others. */
  lemma {:induction false} OneAgainstRest(leafKey: string, vs: seq<Json>, s: Json, n: Json, least: Json)
    returns (xs: seq<Json>, ys: seq<Json>)
    requires AllArrays(vs) && s in vs && IsStringArray(s) && n in vs && NonStringList(n)
    requires IsTextLeast(least, vs) && s != least && n != least
    ensures xs != [] && ys != [] && SameElements(xs + ys, vs) && !Composes(leafKey, xs, ys)
  {
    var others := Remove(vs, s);
    SameMembers(others + [s], vs);
    ys := ToFront(others, n);
    xs := [s];
    SameMembers(ys, others);
    assert multiset(others + [s]) == multiset(others) + multiset{s};
    assert AllArrays(ys) && (xs + ys)[0] == s;
    SameMembers(xs + ys, vs);
    StringFirst(vs, xs + ys, least);
    PairIsOne(leafKey, s, n);
  }

  /** Some string lists whose union sorts before the single list of another sort, against all others. */
  lemma {:induction false} UnionAgainstRest(leafKey: string, vs: seq<Json>, ts: seq<Json>, n: Json)
    returns (xs: seq<Json>, ys: seq<Json>)
    requires AllArrays(vs) && n in vs && NonStringList(n) && IsTextLeast(n, vs)
    requires ts != [] && StringLists(ts) && multiset(ts) <= multiset(vs) && !Le(Encode(n), Encode(MergedArrays(ts)))
    ensures xs != [] && ys != [] && SameElements(xs + ys, vs) && !Composes(leafKey, xs, ys)
  {
    xs := ts;
    var rest := TheRest(vs, ts);
    SameMembers(ts + rest, vs);
    assert n in ts || n in rest;
    ys := ToFront(rest, n);
    SameMembers(ys, rest);
    assert multiset(ts + rest) == multiset(ts) + multiset(rest);
    assert multiset(xs + ys) == multiset(xs) + multiset(ys);
    assert AllArrays(ys) && AllArrays(ts) && (xs + ys)[0] == ts[0] && ts[0] in ts;
    SameMembers(xs + ys, vs);
    StringFirst(vs, xs + ys, n);
    MergedArrayStrings(ts);
    PairBelow(leafKey, MergedArrays(ts), n);
    LeTotal(Encode(n), Encode(n));
  }

  lemma {:induction false} ListGroupsApart(leafKey: string, vs: seq<Json>) returns (xs: seq<Json>, ys: seq<Json>)
    requires HasNonString(vs) && AllArrays(vs) && !GroupsWell(leafKey, vs)
    ensures xs != [] && ys != [] && SameElements(xs + ys, vs) && !Composes(leafKey, xs, ys)
  {
    var least := FoldPick("", vs);
    FoldIsTextLeast(vs);
    if n :| n in vs && NonStringList(n) && n != least {
      var s := StringBesideLeast(vs, least);
      xs, ys := OneAgainstRest(leafKey, vs, s, n, least);
    } else {
      assert OnlyNonString(vs, least);
      var ts: seq<Json> :| ts != [] && StringLists(ts) && multiset(ts) <= multiset(vs)
        && !Le(Encode(least), Encode(MergedArrays(ts)));
      xs, ys := UnionAgainstRest(leafKey, vs, ts, least);
    }
  }

  /** Nothing outranks lists, and they meet other kinds: the least list wins. */
  lemma {:induction false} BestList(leafKey: string, vs: seq<Json>, n: Json)
    requires n in vs && NonStringList(n) && forall v | v in vs :: Rank(v) >= 2
    ensures !TriadOnTop(leafKey, vs)
    ensures IsBest(leafKey, vs, FoldPick(leafKey, vs)) && FoldPick(leafKey, vs).Array?
  {
    ListRank(n);
    FoldIsBest(leafKey, vs);
    var least := FoldPick(leafKey, vs);
    if !least.Array? { PickByRank(leafKey, least, n); }
  }

  lemma {:induction false} ListRank(n: Json)
    requires NonStringList(n)
    ensures Rank(n) == 2
  {
  }

  lemma {:induction false} BestOfReordered(leafKey: string, vs: seq<Json>, zs: seq<Json>)
    requires vs != [] && SameElements(zs, vs) && !AllArrays(vs) && !TriadOnTop(leafKey, vs)
    ensures zs != [] && MergedValue(leafKey, zs) == FoldPick(leafKey, vs)
  {
    SameMembers(zs, vs);
    BestSurvivesReordering(leafKey, vs, zs);
  }

  lemma {:induction false} ListBeatsOther(leafKey: string, n: Json, m: Json)
    requires NonStringList(n) && Rank(m) >= 2 && !m.Array?
    ensures MergedValue(leafKey, [n, m]) == n
  {
    MergedPair(leafKey, n, m);
    PickByRank(leafKey, n, m);
  }

  /** All lists first, one that is not the best in front, then all others. */
  lemma {:induction false} ListsAgainstOthers(leafKey: string, vs: seq<Json>, n: Json)
    returns (xs: seq<Json>, ys: seq<Json>)
    requires !AllArrays(vs) && (forall v | v in vs :: Rank(v) >= 2) && n in vs && NonStringList(n)
    ensures xs != [] && ys != [] && SameElements(xs + ys, vs)
    ensures MergedValue(leafKey, [MergedValue(leafKey, xs), MergedValue(leafKey, ys)]) == n
  {
    PartsMembers(vs);
    xs := ToFront(ArraysIn(vs), n);
    ys := OthersIn(vs);
    SameMembers(xs, ArraysIn(vs));
    assert multiset(xs + ys) == multiset(ArraysIn(vs) + ys);
    var other :| other in vs && !other.Array?;
    assert other in ys && ys[0] in ys && AllArrays(xs);
    assert MergedValue(leafKey, xs) == n;
    FoldIsMember(leafKey, ys);
    ListBeatsOther(leafKey, n, FoldPick(leafKey, ys));
  }

  lemma {:induction false} UnionAgainstOthers(leafKey: string, vs: seq<Json>, ts: seq<Json>, n: Json)
    returns (xs: seq<Json>, ys: seq<Json>)
    requires IsBest(leafKey, vs, n) && NonStringList(n) && !AllArrays(vs)
    requires ts != [] && StringLists(ts) && multiset(ts) <= multiset(vs) && !Le(Encode(n), Encode(MergedArrays(ts)))
    ensures xs != [] && ys != [] && SameElements(xs + ys, vs)
    ensures MergedValue(leafKey, [MergedValue(leafKey, xs), MergedValue(leafKey, ys)]) == MergedArrays(ts) != n
  {
    xs := ts;
    ys := TheRest(vs, ts);
    SameMembers(xs + ys, vs);
    var other :| other in vs && !other.Array?;
    assert n in xs || n in ys;
    assert other in xs || other in ys;
    assert !TriadOnTop(leafKey, ys);
    FoldIsBest(leafKey, ys);
    BestUnique(leafKey, ys, FoldPick(leafKey, ys), n);
    MergedArrayStrings(ts);
    PairBelow(leafKey, MergedArrays(ts), n);
  }

  lemma {:induction false} MixedGroupsApart(leafKey: string, vs: seq<Json>) returns (xs: seq<Json>, ys: seq<Json>)
    requires HasNonString(vs) && !AllArrays(vs) && !GroupsWell(leafKey, vs)
    ensures xs != [] && ys != [] && SameElements(xs + ys, vs) && !Composes(leafKey, xs, ys)
  {
    var least := FoldPick(leafKey, vs);
    var some :| some in vs && NonStringList(some);
    BestList(leafKey, vs, some);
    if n :| n in vs && NonStringList(n) && n != least {
      xs, ys := ListsAgainstOthers(leafKey, vs, n);
      BestOfReordered(leafKey, vs, xs + ys);
    } else {
      assert OnlyNonString(vs, least);
      var ts: seq<Json> :| ts != [] && StringLists(ts) && multiset(ts) <= multiset(vs)
        && !Le(Encode(least), Encode(MergedArrays(ts)));
      xs, ys := UnionAgainstOthers(leafKey, vs, ts, least);
      BestOfReordered(leafKey, vs, xs + ys);
    }
  }

  // ----- the exact condition -----

  lemma {:induction false} GroupsWellReordered(leafKey: string, vs: seq<Json>, ws: seq<Json>)
    requires SameElements(ws, vs) && GroupsWell(leafKey, vs)
    ensures GroupsWell(leafKey, ws)
  {
    SameMembers(ws, vs);
    if !HasNonString(vs) {
      ComposableUnderReordering(leafKey, vs, ws);
    } else if NonStringLeast(vs) {
      var n :| n in vs && OnlyNonString(vs, n) && BelowUnions(vs, n);
      assert OnlyNonString(ws, n) && BelowUnions(ws, n);
    } else if s :| s in vs && OnlyString(vs, s) {
      assert OnlyString(ws, s);
    }
  }

  /** Merging in two groups gives the value of merging at once, for every order and every cut of the contributions,
      exactly when they group well. */
  lemma {:induction false} GroupingIndependentIff(leafKey: string, vs: seq<Json>)
    ensures GroupingIndependent(leafKey, vs) <==> GroupsWell(leafKey, vs)
  {
    if !HasNonString(vs) {
      GroupingIndependentIffComposable(leafKey, vs);
    } else if GroupsWell(leafKey, vs) {
      forall xs: seq<Json>, ys: seq<Json> | xs != [] && ys != [] && SameElements(xs + ys, vs)
        ensures Composes(leafKey, xs, ys)
      {
        GroupsWellReordered(leafKey, vs, xs + ys);
        GroupsWellIsEnough(leafKey, xs, ys);
      }
    } else if AllArrays(vs) {
      var xs, ys := ListGroupsApart(leafKey, vs);
    } else {
      var xs, ys := MixedGroupsApart(leafKey, vs);
    }
  }
}
