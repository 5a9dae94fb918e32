/** What "restrictive wins" comes to for each kind of setting, in terms of its name and of the contributed values. */
module RestrictiveWins {
  import opened Text
  import opened Json
  import opened JsonText
  import opened Restrictive
  import opened Merging

  /** A setting that denies something: its name ends in one of these, in capitals or not. */
  ghost predicate Denies(name: string) {
    EndsIn(name, "_disabled") || EndsIn(name, "_blocked") || EndsIn(name, "_denied")
  }

  lemma {:induction false} DeniesIff(name: string)
    ensures Denies(name) <==> DenyKey(name)
  {
    EndsInIff(name, "_disabled");
    EndsInIff(name, "_blocked");
    EndsInIff(name, "_denied");
  }

  predicate Numbers(vs: seq<Json>) { forall v | v in vs :: v.Num? }

  predicate Bools(vs: seq<Json>) { forall v | v in vs :: v.Bool? }

  predicate Strings(vs: seq<Json>) { forall v | v in vs :: v.String? }

  lemma {:induction false} NumbersBest(name: string, vs: seq<Json>)
    requires vs != [] && Numbers(vs)
    ensures MergedValue(name, vs) == FoldPick(name, vs) && IsBest(name, vs, FoldPick(name, vs))
  {
    assert vs[0] in vs;
    FoldIsBest(name, vs);
  }

  /** Numbers: the greatest wins if the name has a part `min_`, in capitals or not; else the smallest. */
  lemma {:induction false} NumbersMerge(name: string, vs: seq<Json>)
    requires vs != [] && Numbers(vs)
    ensures MergedValue(name, vs) in vs
    ensures HasPart(name, "min_") ==> forall v | v in vs :: Value(v.n) <= Value(MergedValue(name, vs).n)
    ensures !HasPart(name, "min_") ==> forall v | v in vs :: Value(MergedValue(name, vs).n) <= Value(v.n)
  {
    HasPartIff(name, "min_");
    NumbersBest(name, vs);
    var w := FoldPick(name, vs);
    forall v | v in vs
      ensures if HasPart(name, "min_") then Value(v.n) <= Value(w.n) else Value(w.n) <= Value(v.n)
    {
      assert Wins(name, w, v);
    }
  }

  /** Booleans: a setting that denies is on if anyone turns it on; any other is on if nobody turns it off. */
  lemma {:induction false} BoolsMerge(name: string, vs: seq<Json>)
    requires vs != [] && Bools(vs)
    ensures MergedValue(name, vs) == Bool(if Denies(name) then Bool(true) in vs else Bool(false) !in vs)
  {
    DeniesIff(name);
    assert vs[0] in vs;
    FoldIsBest(name, vs);
    var w := FoldPick(name, vs);
    if Bool(true) in vs && Bool(false) in vs {
      assert Wins(name, w, Bool(true)) && Wins(name, w, Bool(false));
    }
  }

  /** Strings: the least wins. */
  lemma {:induction false} StringsMerge(name: string, vs: seq<Json>)
    requires vs != [] && Strings(vs)
    ensures MergedValue(name, vs) in vs && forall v | v in vs :: Before(MergedValue(name, vs).s, v.s)
  {
    assert vs[0] in vs;
    FoldIsBest(name, vs);
    var w := FoldPick(name, vs);
    forall v | v in vs ensures Before(w.s, v.s) {
      assert Wins(name, w, v);
      LeTotal(w.s, w.s);
      LeIsBefore(w.s, v.s);
    }
  }

  /** Each string once, in ascending order. */
  predicate Ascending(v: Json) {
    IsStringArray(v) && forall i, j | 0 <= i < j < |v.elems| :: Le(v.elems[i].s, v.elems[j].s) && v.elems[i] != v.elems[j]
  }

  /** Lists of strings that are not all the same: the list of all their strings, each once, in ascending order. */
  lemma {:induction false} StringListsMerge(name: string, vs: seq<Json>)
    requires vs != [] && (forall v | v in vs :: IsStringArray(v)) && exists v | v in vs :: v != vs[0]
    ensures Ascending(MergedValue(name, vs))
    ensures forall x: string :: String(x) in MergedValue(name, vs).elems <==> exists v | v in vs :: v.Array? && String(x) in v.elems
  {
    assert !AllEqual(vs);
    UnionLists(vs);
    var u := Union(vs);
    forall x: string ensures String(x) in u.elems <==> exists v | v in vs :: v.Array? && String(x) in v.elems {
      assert x in StringsOf([u]) <==> x in StringsOf(vs);
      assert u in [u] && forall v | v in [u] :: v == u;
      if String(x) in u.elems { assert String(x).s in StringsOf([u]); }
      if v :| v in vs && v.Array? && String(x) in v.elems { assert String(x).s in StringsOf(vs); }
    }
  }

  /** Lists of which some hold more than strings: the first one wins, if it is of that sort, or if all are the same; else
      the one whose text is least. */
  lemma {:induction false} OtherListsMerge(name: string, vs: seq<Json>)
    requires vs != [] && AllArrays(vs) && exists v | v in vs :: exists x | x in v.elems :: !x.String?
    ensures (exists x | x in vs[0].elems :: !x.String?) ==> MergedValue(name, vs) == vs[0]
    ensures (forall x | x in vs[0].elems :: x.String?) ==>
              MergedValue(name, vs) in vs && forall v | v in vs :: Le(Encode(MergedValue(name, vs)), Encode(v))
  {
    assert vs[0] in vs;
    var v, x :| v in vs && x in v.elems && !x.String?;
    assert !IsStringArray(v);
    if IsStringArray(vs[0]) { FoldIsTextLeast(vs); }
  }

  lemma {:induction false} UnionLists(vs: seq<Json>)
    ensures Ascending(Union(vs)) && StringsOf([Union(vs)]) == StringsOf(vs)
  {
    UnionIsStringArray(vs);
    var ks := SortedKeys(StringsOf(vs));
  }

  /** Of two contributions of one kind, w is the one that wins. */
  ghost predicate WinsAlike(name: string, w: Json, v: Json) {
    && (w.String? && v.String? ==> Before(w.s, v.s))
    && (w.Num? && v.Num? ==> if HasPart(name, "min_") then Value(v.n) <= Value(w.n) else Value(w.n) <= Value(v.n))
    && (w.Array? && v.Array? ==> Le(Encode(w), Encode(v)))
  }

  /** v is a string; or a number, and there is no string; or a list, and there is neither. */
  predicate Foremost(vs: seq<Json>, v: Json) {
    || v.String?
    || (v.Num? && forall x | x in vs :: !x.String?)
    || (v.Array? && forall x | x in vs :: !x.String? && !x.Num?)
  }

  /** Different kinds: strings outrank numbers, numbers lists, and lists all else. Of the foremost kind the contribution wins
      that would win alone; of lists, the one whose text is least. */
  lemma {:induction false} KindsMerge(name: string, vs: seq<Json>, v: Json)
    requires !AllArrays(vs) && v in vs && Foremost(vs, v)
    ensures var w := MergedValue(name, vs);
      && w in vs && (w.String? <==> v.String?) && (w.Num? <==> v.Num?) && (w.Array? <==> v.Array?)
      && forall x | x in vs :: WinsAlike(name, w, x)
  {
    FoldIsMember(name, vs);
    forall x | x in vs ensures Rank(x) >= Rank(v) {}
    Outranking(name, vs, v);
    var w := FoldPick(name, vs);
    forall x | x in vs ensures WinsAlike(name, w, x) {
      if KindOf(x) == KindOf(w) { SameKindWins(name, w, x); }
    }
  }

  lemma {:induction false} Outranking(name: string, vs: seq<Json>, v: Json)
    requires v in vs && (v.String? || v.Num? || v.Array?) && forall x | x in vs :: Rank(x) >= Rank(v)
    ensures var w := FoldPick(name, vs);
      KindOf(w) == KindOf(v) && forall x | x in vs :: Wins(name, w, x)
  {
    FoldIsBest(name, vs);
    var w := FoldPick(name, vs);
    if KindOf(w) != KindOf(v) { PickByRank(name, w, v); }
  }

  lemma {:induction false} SameKindWins(name: string, w: Json, v: Json)
    requires Wins(name, w, v) && KindOf(v) == KindOf(w)
    ensures WinsAlike(name, w, v)
  {
    HasPartIff(name, "min_");
    if w.String? {
      LeTotal(w.s, w.s);
      LeIsBefore(w.s, v.s);
    }
    if w.Array? { LeTotal(Encode(w), Encode(w)); }
  }

  /** No string, number or list: `{}` yields to everything else; of true, false and null, at a setting that does not deny,
      false wins over null and null over true. At one that denies true wins over false, which makes a circle of the
      three; without it, the winner is the one that no other beats. */
  lemma {:induction false} SwitchesMerge(name: string, vs: seq<Json>, w: Json)
    requires vs != [] && (forall v | v in vs :: v.Bool? || v.Null? || v == EmptyObject) && w == MergedValue(name, vs)
    requires !(Denies(name) && Bool(true) in vs && Bool(false) in vs && Null in vs)
    ensures w == if Denies(name) && Bool(true) in vs && Bool(false) in vs then Bool(true)
                 else if Bool(false) in vs then Bool(false)
                 else if Null in vs then Null
                 else if Bool(true) in vs then Bool(true)
                 else EmptyObject
  {
    DeniesIff(name);
    assert vs[0] in vs;
    FoldIsBest(name, vs);
    forall v | v in vs && KindOf(v) != KindOf(w) ensures Rank(w) < Rank(v) { PickByRank(name, w, v); }
    if w.Bool? && Bool(!w.b) in vs { assert Wins(name, w, Bool(!w.b)); }
  }
}
