/** "Restrictive wins": the value that several contributions to one setting merge into. */
module Restrictive {
  import opened Text
  import opened Json
  import opened JsonText

  datatype Kind = KindUnknown | KindBool | KindNumber | KindString | KindArray | KindObject

  function KindOf(v: Json): Kind {
    match v
    case Null => KindUnknown
    case Bool(_) => KindBool
    case Num(_) => KindNumber
    case String(_) => KindString
    case Array(_) => KindArray
    case Object(_) => KindObject
  }

  /** Settings for which `true` is the restrictive value. */
  predicate DenyKey(leafKey: string) {
    var key := ToLower(leafKey);
    HasSuffix(key, "_disabled") || HasSuffix(key, "_blocked") || HasSuffix(key, "_denied")
  }

  /** Settings for which the larger number is the restrictive one. */
  predicate MinimumKey(leafKey: string) {
    Contains(ToLower(leafKey), "min_")
  }

  function PickNumber(leafKey: string, a: Number, b: Number): Number {
    if MinimumKey(leafKey) then if Value(b) > Value(a) then b else a
    else if Value(b) < Value(a) then b else a
  }

  function PickByText(a: Json, b: Json): Json {
    if Le(Encode(a), Encode(b)) then a else b
  }

  /** restrictivePickScalars */
  function Pick(leafKey: string, a: Json, b: Json): Json {
    if KindOf(a) != KindOf(b) then PickByText(a, b)
    else
      match a
      case Bool(x) => Bool(if DenyKey(leafKey) then x || b.b else x && b.b)
      case Num(x) => Num(PickNumber(leafKey, x, b.n))
      case String(x) => if Le(x, b.s) then a else b
      case _ => PickByText(a, b)
  }

  /** a is at least as restrictive as b */
  predicate Wins(leafKey: string, a: Json, b: Json) { Pick(leafKey, a, b) == a }

  lemma {:induction false} PickByRank(leafKey: string, a: Json, b: Json)
    requires KindOf(a) != KindOf(b)
    ensures Rank(a) != Rank(b) && Pick(leafKey, a, b) == if Rank(a) < Rank(b) then a else b
  {
    if Rank(a) < Rank(b) {
      RankDecides(a, b);
    } else {
      RankDecides(b, a);
    }
  }

  lemma {:induction false} PickByTextCommutes(a: Json, b: Json)
    ensures PickByText(a, b) == PickByText(b, a)
  {
    LeTotal(Encode(a), Encode(b));
    if Le(Encode(a), Encode(b)) && Le(Encode(b), Encode(a)) {
      LeAntisymmetric(Encode(a), Encode(b));
      EncodeInjective(a, b);
    }
  }

  lemma {:induction false} PickCommutes(leafKey: string, a: Json, b: Json)
    ensures Pick(leafKey, a, b) == Pick(leafKey, b, a)
    ensures Pick(leafKey, a, b) == a || Pick(leafKey, a, b) == b
    ensures Wins(leafKey, a, b) || Wins(leafKey, b, a)
  {
    if a.Num? && b.Num? {
      NumbersCommute(leafKey, a.n, b.n);
    } else if a.String? && b.String? {
      LeTotal(a.s, b.s);
      if Le(a.s, b.s) && Le(b.s, a.s) { LeAntisymmetric(a.s, b.s); }
    } else if !(a.Bool? && b.Bool?) {
      PickByTextCommutes(a, b);
      assert Pick(leafKey, a, b) == PickByText(a, b) && Pick(leafKey, b, a) == PickByText(b, a);
    }
  }

  lemma {:induction false} NumbersCommute(leafKey: string, x: Number, y: Number)
    ensures PickNumber(leafKey, x, y) == PickNumber(leafKey, y, x)
    ensures PickNumber(leafKey, x, y) == x || PickNumber(leafKey, x, y) == y
  {
    if Value(x) == Value(y) { ValueInjective(x, y); }
  }

  lemma {:induction false} WinsBoth(leafKey: string, a: Json, b: Json)
    requires Wins(leafKey, a, b) && Wins(leafKey, b, a)
    ensures a == b
  {
    PickCommutes(leafKey, a, b);
  }

  /** true beats false, false beats null and null beats true: no order has these three. */
  predicate Triad(leafKey: string, vs: seq<Json>) {
    DenyKey(leafKey) && Bool(true) in vs && Bool(false) in vs && Null in vs
  }

  lemma {:induction false} WinsSameKind(leafKey: string, a: Json, b: Json, c: Json)
    requires KindOf(a) == KindOf(b) == KindOf(c)
    requires Wins(leafKey, a, b) && Wins(leafKey, b, c)
    ensures Wins(leafKey, a, c)
  {
    PickCommutes(leafKey, a, b);
    PickCommutes(leafKey, b, c);
    match a
    case Bool(_) =>
    case Num(x) =>
    case String(x) =>
      LeTotal(x, x);
      LeTotal(b.s, b.s);
      LeTransitive(x, b.s, c.s);
    case _ =>
      LeTotal(Encode(a), Encode(a));
      LeTotal(Encode(b), Encode(b));
      LeTransitive(Encode(a), Encode(b), Encode(c));
  }

  lemma {:induction false} WinsAcrossKinds(leafKey: string, a: Json, b: Json, c: Json)
    requires Wins(leafKey, a, b) && Wins(leafKey, b, c)
    requires !(KindOf(a) == KindOf(b) == KindOf(c)) && KindOf(a) != KindOf(c)
    requires !(DenyKey(leafKey) && {a, b, c} == {Bool(true), Bool(false), Null})
    ensures Wins(leafKey, a, c)
  {
    PickByRank(leafKey, a, c);
    if KindOf(a) != KindOf(b) { PickByRank(leafKey, a, b); }
    if KindOf(b) != KindOf(c) { PickByRank(leafKey, b, c); }
    assert DenyKey(leafKey) ==> {a, b, c} != {Bool(true), Bool(false), Null};
  }

  lemma {:induction false} WinsTransitive(leafKey: string, a: Json, b: Json, c: Json)
    requires Wins(leafKey, a, b) && Wins(leafKey, b, c)
    requires !(DenyKey(leafKey) && {a, b, c} == {Bool(true), Bool(false), Null})
    ensures Wins(leafKey, a, c)
  {
    if KindOf(a) == KindOf(b) == KindOf(c) {
      WinsSameKind(leafKey, a, b, c);
    } else if KindOf(a) != KindOf(c) {
      WinsAcrossKinds(leafKey, a, b, c);
    } else {
      PickByRank(leafKey, a, b);
      PickByRank(leafKey, b, c);
    }
  }

  // ----- folding a list of contributions -----

  /** restrictivePickMixed */
  function FoldPick(leafKey: string, vs: seq<Json>): Json
    requires vs != []
  {
    if |vs| == 1 then vs[0] else Pick(leafKey, FoldPick(leafKey, vs[..|vs| - 1]), vs[|vs| - 1])
  }

  /** w is a contribution that beats every contribution. */
  predicate IsBest(leafKey: string, vs: seq<Json>, w: Json) {
    w in vs && forall v | v in vs :: Wins(leafKey, w, v)
  }

  /** The triad is there and nothing outranks it. */
  predicate TriadOnTop(leafKey: string, vs: seq<Json>) {
    Triad(leafKey, vs) && forall v | v in vs :: Rank(v) >= 3
  }

  lemma {:induction false} BestUnique(leafKey: string, vs: seq<Json>, w: Json, x: Json)
    requires IsBest(leafKey, vs, w) && IsBest(leafKey, vs, x)
    ensures w == x
  {
    WinsBoth(leafKey, w, x);
  }

  lemma {:induction false} FoldIsMember(leafKey: string, vs: seq<Json>)
    requires vs != []
    ensures FoldPick(leafKey, vs) in vs
  {
    if |vs| > 1 {
      FoldIsMember(leafKey, vs[..|vs| - 1]);
      PickCommutes(leafKey, FoldPick(leafKey, vs[..|vs| - 1]), vs[|vs| - 1]);
    }
  }

  lemma {:induction false} OutrankedTriad(leafKey: string, us: seq<Json>, x: Json)
    requires TriadOnTop(leafKey, us) && !TriadOnTop(leafKey, us + [x])
    ensures Rank(x) < 3
  {
    assert forall v | v in us :: v in us + [x];
    assert forall v | v in us + [x] :: v in us || v == x;
  }

  lemma {:induction false} Outranks(leafKey: string, x: Json, v: Json)
    requires Rank(x) < 3 <= Rank(v)
    ensures Wins(leafKey, x, v) && Pick(leafKey, v, x) == x
  {
    PickByRank(leafKey, x, v);
    PickByRank(leafKey, v, x);
  }

  lemma {:induction false} OutrankingIsBest(leafKey: string, us: seq<Json>, x: Json)
    requires Rank(x) < 3 && forall v | v in us :: Rank(v) >= 3
    ensures IsBest(leafKey, us + [x], x)
  {
    forall v | v in us + [x] ensures Wins(leafKey, x, v) {
      if v in us { Outranks(leafKey, x, v); } else { PickCommutes(leafKey, x, x); }
    }
  }

  lemma {:induction false} BestStep(leafKey: string, us: seq<Json>, acc: Json, x: Json)
    requires IsBest(leafKey, us, acc) && !TriadOnTop(leafKey, us + [x])
    ensures IsBest(leafKey, us + [x], Pick(leafKey, acc, x))
  {
    PickCommutes(leafKey, acc, x);
    PickCommutes(leafKey, x, x);
    if Pick(leafKey, acc, x) != acc {
      forall v | v in us ensures Wins(leafKey, x, v) {
        StepTransitive(leafKey, us, x, acc, v);
      }
    }
  }

  lemma {:induction false} StepTransitive(leafKey: string, us: seq<Json>, x: Json, acc: Json, v: Json)
    requires IsBest(leafKey, us, acc) && Wins(leafKey, x, acc) && v in us
    requires !TriadOnTop(leafKey, us + [x])
    ensures Wins(leafKey, x, v)
  {
    if DenyKey(leafKey) && {x, acc, v} == {Bool(true), Bool(false), Null} {
      assert x in {x, acc, v} && acc in {x, acc, v};
      assert forall y | y in {x, acc, v} :: y in us + [x];
      assert Bool(true) in {x, acc, v} && Bool(false) in {x, acc, v} && Null in {x, acc, v};
      var y :| y in us + [x] && Rank(y) < 3;
      assert y in us;
      PickByRank(leafKey, acc, y);
    } else {
      WinsTransitive(leafKey, x, acc, v);
    }
  }

  /** Unless the triad decides, the fold finds the one contribution that beats all others. */
  lemma {:induction false} FoldIsBest(leafKey: string, vs: seq<Json>)
    requires vs != [] && !TriadOnTop(leafKey, vs)
    ensures IsBest(leafKey, vs, FoldPick(leafKey, vs))
  {
    if |vs| == 1 {
      PickCommutes(leafKey, vs[0], vs[0]);
    } else {
      var us := vs[..|vs| - 1];
      assert vs == us + [vs[|vs| - 1]];
      if TriadOnTop(leafKey, us) {
        OutrankedTriad(leafKey, us, vs[|vs| - 1]);
        FoldIsMember(leafKey, us);
        Outranks(leafKey, vs[|vs| - 1], FoldPick(leafKey, us));
        OutrankingIsBest(leafKey, us, vs[|vs| - 1]);
      } else {
        FoldIsBest(leafKey, us);
        BestStep(leafKey, us, FoldPick(leafKey, us), vs[|vs| - 1]);
      }
    }
  }
}
