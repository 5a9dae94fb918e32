/** When the conflict flag of a path depends on the order of the assigned profiles. */
module ConflictFlags {
  import opened Json
  import opened Restrictive
  import opened Merging
  import opened Conflicts

  predicate NumbersNear(v: Json, w: Json) { v.Num? && w.Num? && NearlyEqual(v.n, w.n) }

  /** A contribution that is within tolerance of all others. */
  predicate Central(v: Json, vs: seq<Json>) { forall w | w in vs :: NumbersNear(w, v) }

  /** The condition, checkable on the contributions alone, for the flag not to depend on their order: of numbers, all
      or none is central; of arrays that differ, all or none lists strings only. */
  predicate FlagSettled(vs: seq<Json>)
    requires vs != []
  {
    if AllKind(vs, KindNumber) then (forall v | v in vs :: Central(v, vs)) || (forall v | v in vs :: !Central(v, vs))
    else if AllKind(vs, KindArray) then
      AllEqual(vs) || (forall v | v in vs :: IsStringArray(v)) || (forall v | v in vs :: !IsStringArray(v))
    else true
  }

  ghost predicate FlagOrderIndependent(vs: seq<Json>)
    requires vs != []
  {
    forall ws: seq<Json> | ws != [] && SameElements(vs, ws) :: Disagree(ws) == Disagree(vs)
  }

  lemma {:induction false} NumberFlag(vs: seq<Json>)
    requires vs != [] && AllKind(vs, KindNumber)
    ensures Disagree(vs) <==> !Central(vs[0], vs)
  {
    assert vs[0] in vs;
  }

  lemma {:induction false} FlagOfReordering(vs: seq<Json>, ws: seq<Json>)
    requires vs != [] && ws != [] && SameElements(vs, ws) && FlagSettled(vs)
    ensures Disagree(ws) == Disagree(vs)
  {
    SameMembers(vs, ws);
    assert vs[0] in vs && ws[0] in vs;
    if AllKind(vs, KindNumber) {
      NumberFlag(vs);
      NumberFlag(ws);
      assert Central(ws[0], ws) <==> Central(ws[0], vs);
    } else {
      assert AllEqual(vs) <==> AllEqual(ws);
    }
  }

  /** Orders that disagree about the flag: one with a first element that stands for agreement, one with another. */
  lemma {:induction false} UnsettledFlag(vs: seq<Json>) returns (us: seq<Json>, ws: seq<Json>)
    requires vs != [] && !FlagSettled(vs)
    ensures us != [] && ws != [] && SameElements(vs, us) && SameElements(vs, ws) && Disagree(us) != Disagree(ws)
  {
    var a: Json, b: Json;
    if AllKind(vs, KindNumber) {
      a, b :| a in vs && b in vs && Central(a, vs) && !Central(b, vs);
    } else {
      a, b :| a in vs && b in vs && !IsStringArray(a) && IsStringArray(b);
    }
    us := ToFront(vs, a);
    ws := ToFront(vs, b);
    SameMembers(vs, us);
    SameMembers(vs, ws);
    if AllKind(vs, KindNumber) {
      NumberFlag(us);
      NumberFlag(ws);
      assert Central(a, us) && !Central(b, ws);
    } else {
      assert !AllEqual(ws);
    }
  }

  /** A path's conflict flag is the same for every order of its contributions exactly when they are settled. */
  lemma {:induction false} FlagOrderIndependentIffSettled(vs: seq<Json>)
    requires vs != []
    ensures FlagOrderIndependent(vs) <==> FlagSettled(vs)
  {
    if FlagSettled(vs) {
      forall ws: seq<Json> | ws != [] && SameElements(vs, ws) ensures Disagree(ws) == Disagree(vs) {
        FlagOfReordering(vs, ws);
      }
    } else {
      var us, ws := UnsettledFlag(vs);
    }
  }

  /** Tolerance is not transitive: of three such numbers the middle one is central and the others are not. */
  lemma {:induction false} ToleranceFlagDependsOnOrder(a: Number, b: Number, c: Number)
    requires NearlyEqual(a, b) && NearlyEqual(b, c) && !NearlyEqual(a, c)
    ensures Disagree([Num(a), Num(b), Num(c)]) && !Disagree([Num(b), Num(a), Num(c)])
  {
    NearlyEqualSelf(b);
    NearlyEqualSymmetric(b, c);
    NearlyEqualSymmetric(a, c);
    assert Num(c) in [Num(a), Num(b), Num(c)];
  }
}
