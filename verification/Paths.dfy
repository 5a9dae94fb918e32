/** Payload trees and the flat tables of dotted paths they are taken apart into and rebuilt from. */
module Paths {
  import opened Text
  import opened Json

  // ----- reading a tree -----

  /** The value reached by following keys from v. */
  function ReadAt(v: Json, segs: seq<string>): Option<Json>
    decreases segs
  {
    if segs == [] then Some(v)
    else if v.Object? && segs[0] in v.fields then ReadAt(v.fields[segs[0]], segs[1..])
    else None
  }

  /** The leaf at a path, if there is one. */
  function LeafAt(v: Json, segs: seq<string>): Option<Json> {
    match ReadAt(v, segs)
    case None => None
    case Some(x) => if IsLeaf(x) then Some(x) else None
  }

  lemma {:induction false} ReadAppend(v: Json, a: seq<string>, b: seq<string>)
    ensures ReadAt(v, a + b) == match ReadAt(v, a) case None => None case Some(x) => ReadAt(x, b)
    decreases a
  {
    if a == [] {
      assert a + b == b;
    } else {
      assert (a + b)[1..] == a[1..] + b;
      if v.Object? && a[0] in v.fields {
        ReadAppend(v.fields[a[0]], a[1..], b);
      }
    }
  }

  /** Nothing lies below a leaf. */
  lemma {:induction false} NothingBelowLeaf(v: Json, a: seq<string>, b: seq<string>)
    requires LeafAt(v, a).Some? && b != []
    ensures ReadAt(v, a + b) == None
  {
    ReadAppend(v, a, b);
  }

  /** Every value that is not `{}`-free has a leaf somewhere below it. */
  lemma {:induction false} SomeLeaf(v: Json) returns (segs: seq<string>)
    ensures LeafAt(v, segs).Some?
    decreases v
  {
    if IsLeaf(v) {
      segs := [];
    } else {
      var k :| k in v.fields;
      var rest := SomeLeaf(v.fields[k]);
      segs := [k] + rest;
      assert segs[1..] == rest;
    }
  }

  ghost predicate SameLeaves(v: Json, w: Json) {
    forall segs: seq<string> :: LeafAt(v, segs) == LeafAt(w, segs)
  }

  lemma {:induction false} SameLeavesBelow(v: Json, w: Json, k: string)
    requires SameLeaves(v, w) && v.Object? && w.Object? && k in v.fields && k in w.fields
    ensures SameLeaves(v.fields[k], w.fields[k])
  {
    forall segs: seq<string> ensures LeafAt(v.fields[k], segs) == LeafAt(w.fields[k], segs) {
      assert ([k] + segs)[1..] == segs;
      assert LeafAt(v, [k] + segs) == LeafAt(w, [k] + segs);
    }
  }

  lemma {:induction false} KeyShared(v: Json, w: Json, k: string)
    requires SameLeaves(v, w) && v.Object? && k in v.fields
    ensures w.Object? && k in w.fields
  {
    var rest := SomeLeaf(v.fields[k]);
    assert ([k] + rest)[1..] == rest;
    assert LeafAt(v, [k] + rest) == LeafAt(w, [k] + rest);
  }

  /** A tree is determined by its leaves. */
  lemma {:induction false} LeavesDetermine(v: Json, w: Json)
    requires SameLeaves(v, w)
    ensures v == w
    decreases v
  {
    assert LeafAt(v, []) == LeafAt(w, []);
    if !IsLeaf(v) {
      forall k | k in v.fields
        ensures k in w.fields && v.fields[k] == w.fields[k]
      {
        KeyShared(v, w, k);
        SameLeavesBelow(v, w, k);
        LeavesDetermine(v.fields[k], w.fields[k]);
      }
      forall k | k in w.fields ensures k in v.fields {
        KeyShared(w, v, k);
      }
      assert v.fields.Keys == w.fields.Keys;
      assert v.fields == w.fields;
    }
  }

  // ----- flattening -----

  datatype Entry = Entry(path: string, source: nat, value: Json)

  function ChildPath(prefix: string, k: string): string {
    if prefix != "" then prefix + "." + k else k
  }

  /** flattenContributions: the contributions of one payload in the order they are appended. */
  function Flatten(prefix: string, v: Json, source: nat): seq<Entry>
    decreases v
  {
    match v
    case Object(m) =>
      if m == map[] && prefix != "" then [Entry(prefix, source, v)]
      else FlattenKeys(prefix, v, SortedKeys(m.Keys), source)
    case _ => if prefix != "" then [Entry(prefix, source, v)] else []
  }

  function FlattenKeys(prefix: string, v: Json, ks: seq<string>, source: nat): seq<Entry>
    requires v.Object? && forall k | k in ks :: k in v.fields
    decreases v, |ks|
  {
    if ks == [] then []
    else Flatten(ChildPath(prefix, ks[0]), v.fields[ks[0]], source) + FlattenKeys(prefix, v, ks[1..], source)
  }

  /** The values contributed to one path, in order. */
  function Values(es: seq<Entry>, path: string): seq<Json> {
    if es == [] then []
    else Chosen(es[0], path) + Values(es[1..], path)
  }

  function PathsOf(es: seq<Entry>): set<string> { set e | e in es :: e.path }

  function Chosen(e: Entry, path: string): seq<Json> { if e.path == path then [e.value] else [] }

  lemma {:induction false} ValuesAppend(a: seq<Entry>, b: seq<Entry>, path: string)
    ensures Values(a + b, path) == Values(a, path) + Values(b, path)
  {
    if a == [] {
      assert a + b == b;
    } else {
      var c := a + b;
      assert c[0] == a[0] && c[1..] == a[1..] + b;
      ValuesAppend(a[1..], b, path);
      assert Values(c, path) == Chosen(a[0], path) + Values(c[1..], path);
      assert Values(a, path) == Chosen(a[0], path) + Values(a[1..], path);
    }
  }

  lemma {:induction false} ValuesWhere(es: seq<Entry>, path: string)
    ensures Values(es, path) != [] <==> path in PathsOf(es)
    ensures forall v :: v in Values(es, path) <==> exists e | e in es :: e.path == path && e.value == v
  {
    if es != [] {
      ValuesWhere(es[1..], path);
      assert es == [es[0]] + es[1..];
      assert es[0] in es;
      forall v | v in Values(es[1..], path) ensures exists e | e in es :: e.path == path && e.value == v {
        var e :| e in es[1..] && e.path == path && e.value == v;
        assert e in es;
      }
    }
  }

  /** Only scalars, arrays and empty objects ever reach the table, so a disagreement between two objects at one
      path cannot arise. */
  lemma {:induction false} FlattenYieldsLeaves(prefix: string, v: Json, source: nat)
    ensures forall e | e in Flatten(prefix, v, source) :: IsLeaf(e.value) && e.source == source && e.path != ""
    decreases v
  {
    if v.Object? && !(v.fields == map[] && prefix != "") {
      FlattenKeysYieldLeaves(prefix, v, SortedKeys(v.fields.Keys), source);
    }
  }

  lemma {:induction false} FlattenKeysYieldLeaves(prefix: string, v: Json, ks: seq<string>, source: nat)
    requires v.Object? && forall k | k in ks :: k in v.fields
    ensures forall e | e in FlattenKeys(prefix, v, ks, source) ::
              IsLeaf(e.value) && e.source == source && e.path != ""
    decreases v, |ks|
  {
    if ks != [] {
      assert ks[0] in ks;
      FlattenYieldsLeaves(ChildPath(prefix, ks[0]), v.fields[ks[0]], source);
      FlattenKeysYieldLeaves(prefix, v, ks[1..], source);
    }
  }

  // ----- what any payload contributes -----

  /** The dotted path that following some keys leads to. */
  function Chain(prefix: string, ks: seq<string>): string
    decreases ks
  {
    if ks == [] then prefix else Chain(ChildPath(prefix, ks[0]), ks[1..])
  }

  ghost predicate LeafOnPath(prefix: string, v: Json, path: string, x: Json) {
    exists ks :: LeafAt(v, ks) == Some(x) && Chain(prefix, ks) == path
  }

  /** Any keys: the contributions of a tree are its leaves, each at the path its keys join to; only what ends up at
      the empty path is left out. */
  lemma {:induction false} FlattenedIff(prefix: string, v: Json, source: nat, path: string, x: Json)
    ensures Entry(path, source, x) in Flatten(prefix, v, source) <==> path != "" && LeafOnPath(prefix, v, path, x)
    decreases v
  {
    if IsLeaf(v) {
      FlattenedLeaf(prefix, v, source);
      if v == x && prefix == path { LeafHere(prefix, v); }
      if LeafOnPath(prefix, v, path, x) { OnlyLeafHere(prefix, v, path, x); }
    } else {
      FlattenedKeysIff(prefix, v, SortedKeys(v.fields.Keys), source, path, x);
      LeafOnPathIff(prefix, v, path, x);
    }
  }

  /** A leaf below one of the keys. */
  ghost predicate LeafThrough(prefix: string, v: Json, ks: seq<string>, path: string, x: Json)
    requires v.Object? && forall k | k in ks :: k in v.fields
  {
    exists k | k in ks :: LeafOnPath(ChildPath(prefix, k), v.fields[k], path, x)
  }

  lemma {:induction false} LeafOnPathIff(prefix: string, v: Json, path: string, x: Json)
    requires !IsLeaf(v)
    ensures LeafOnPath(prefix, v, path, x) <==> LeafThrough(prefix, v, SortedKeys(v.fields.Keys), path, x)
  {
    var all := SortedKeys(v.fields.Keys);
    if LeafOnPath(prefix, v, path, x) {
      var k := LeafIsThrough(prefix, v, path, x);
      assert k in all;
    }
    if LeafThrough(prefix, v, all, path, x) {
      var k :| k in all && LeafOnPath(ChildPath(prefix, k), v.fields[k], path, x);
      LeafBelowKey(prefix, v, k, path, x);
    }
  }

  lemma {:induction false} FlattenedLeaf(prefix: string, v: Json, source: nat)
    requires IsLeaf(v)
    ensures Flatten(prefix, v, source) == if prefix == "" then [] else [Entry(prefix, source, v)]
  {
    if v.Object? {
      assert v.fields.Keys == {};
    }
  }

  lemma {:induction false} OnlyLeafHere(prefix: string, v: Json, path: string, x: Json)
    requires IsLeaf(v) && LeafOnPath(prefix, v, path, x)
    ensures path == prefix && x == v
  {
    var ks :| LeafAt(v, ks) == Some(x) && Chain(prefix, ks) == path;
  }

  lemma {:induction false} LeafIsThrough(prefix: string, v: Json, path: string, x: Json) returns (k: string)
    requires !IsLeaf(v) && LeafOnPath(prefix, v, path, x)
    ensures k in v.fields && LeafOnPath(ChildPath(prefix, k), v.fields[k], path, x)
  {
    var ks :| LeafAt(v, ks) == Some(x) && Chain(prefix, ks) == path;
    k := ks[0];
    assert LeafAt(v.fields[k], ks[1..]) == Some(x) && Chain(ChildPath(prefix, k), ks[1..]) == path;
  }

  lemma {:induction false} LeafHere(prefix: string, v: Json)
    requires IsLeaf(v)
    ensures LeafOnPath(prefix, v, prefix, v)
  {
    assert LeafAt(v, []) == Some(v) && Chain(prefix, []) == prefix;
  }

  lemma {:induction false} LeafBelowKey(prefix: string, v: Json, k: string, path: string, x: Json)
    requires v.Object? && k in v.fields && LeafOnPath(ChildPath(prefix, k), v.fields[k], path, x)
    ensures LeafOnPath(prefix, v, path, x)
  {
    var ks :| LeafAt(v.fields[k], ks) == Some(x) && Chain(ChildPath(prefix, k), ks) == path;
    var all := [k] + ks;
    assert all[0] == k && all[1..] == ks;
    assert LeafAt(v, all) == Some(x) && Chain(prefix, all) == path;
  }

  lemma {:induction false} FlattenedKeysIff(prefix: string, v: Json, ks: seq<string>, source: nat, path: string, x: Json)
    requires v.Object? && forall k | k in ks :: k in v.fields
    ensures Entry(path, source, x) in FlattenKeys(prefix, v, ks, source) <==>
            path != "" && LeafThrough(prefix, v, ks, path, x)
    decreases v, |ks|
  {
    if ks != [] {
      assert ks == [ks[0]] + ks[1..];
      FlattenedIff(ChildPath(prefix, ks[0]), v.fields[ks[0]], source, path, x);
      FlattenedKeysIff(prefix, v, ks[1..], source, path, x);
    }
  }

  // ----- what a payload contributes, path by path -----

  /** No key of any object holds a dot. */
  predicate DotFreeKeys(v: Json)
    decreases v
  {
    v.Object? ==> forall k | k in v.fields :: DotFree(k) && DotFreeKeys(v.fields[k])
  }

  /** The keys for which a dotted path leads back to where it came from. */
  predicate Addressable(v: Json) {
    DotFreeKeys(v) && (v.Object? ==> "" !in v.fields)
  }

  function Segments(prefix: string): seq<string> { if prefix == "" then [] else Split(prefix) }

  function AsSeq(o: Option<Json>): seq<Json> { if o.Some? then [o.value] else [] }

  lemma {:induction false} ChildSegments(prefix: string, k: string)
    requires DotFree(k) && (prefix == "" ==> k != "")
    ensures ChildPath(prefix, k) != "" && Segments(ChildPath(prefix, k)) == Segments(prefix) + [k]
  {
    SplitDotFree(k);
    if prefix != "" {
      SplitAppend(prefix, k);
    }
  }

  /** The contribution of a subtree to a path is the leaf it has there, and nothing else. */
  lemma {:induction false} FlattenReads(prefix: string, v: Json, source: nat, path: string,
                                        p: seq<string>, q: seq<string>)
    requires DotFreeKeys(v) && (prefix == "" ==> v.Object? && "" !in v.fields)
    requires p == Segments(prefix) && q == Split(path)
    ensures Values(Flatten(prefix, v, source), path) == if p <= q then AsSeq(LeafAt(v, q[|p|..])) else []
    decreases v
  {
    if v.Object? && !(v.fields == map[] && prefix != "") {
      FlattenKeysReads(prefix, v, SortedKeys(v.fields.Keys), source, path, p, q);
      LeafBelow(v, p, q);
    } else {
      LeafContribution(prefix, v, source, path, p, q);
    }
  }

  lemma {:induction false} LeafStep(v: Json, segs: seq<string>)
    requires v.Object?
    ensures segs != [] ==> LeafAt(v, segs) == if segs[0] in v.fields then LeafAt(v.fields[segs[0]], segs[1..]) else None
    ensures segs == [] && v.fields != map[] ==> LeafAt(v, segs) == None
  {
  }

  lemma {:induction false} LeafBelow(v: Json, p: seq<string>, q: seq<string>)
    requires v.Object? && (p == q ==> v.fields != map[])
    ensures (if p < q && q[|p|] in v.fields then AsSeq(LeafAt(v.fields[q[|p|]], q[|p| + 1..])) else [])
         == if p <= q then AsSeq(LeafAt(v, q[|p|..])) else []
  {
    if p <= q {
      LeafStep(v, q[|p|..]);
    }
  }

  lemma {:induction false} LeafContribution(prefix: string, v: Json, source: nat, path: string,
                                            p: seq<string>, q: seq<string>)
    requires IsLeaf(v) && prefix != "" && p == Split(prefix) && q == Split(path)
    ensures Values([Entry(prefix, source, v)], path) == if p <= q then AsSeq(LeafAt(v, q[|p|..])) else []
  {
    var e := [Entry(prefix, source, v)];
    assert Values(e, path) == Chosen(e[0], path) + Values(e[1..], path);
    if p == q {
      SplitInjective(prefix, path);
      assert q[|p|..] == [];
    }
  }

  lemma {:induction false} BelowChild(p: seq<string>, q: seq<string>, k: string)
    ensures p + [k] <= q <==> p < q && q[|p|] == k
    ensures p + [k] <= q ==> q[|p + [k]|..] == q[|p| + 1..]
  {
    if p < q && q[|p|] == k {
      assert q[..|p| + 1] == p + [k];
    }
  }

  lemma {:induction false} HeadOnce(ks: seq<string>)
    requires ks != [] && Distinct(ks)
    ensures ks[0] !in ks[1..] && Distinct(ks[1..])
    ensures forall x :: x in ks <==> x == ks[0] || x in ks[1..]
  {
    assert ks == [ks[0]] + ks[1..];
  }

  lemma {:induction false} FlattenKeysReads(prefix: string, v: Json, ks: seq<string>, source: nat, path: string,
                                            p: seq<string>, q: seq<string>)
    requires v.Object? && DotFreeKeys(v) && (prefix == "" ==> "" !in v.fields)
    requires Distinct(ks) && forall k | k in ks :: k in v.fields
    requires p == Segments(prefix) && q == Split(path)
    ensures Values(FlattenKeys(prefix, v, ks, source), path)
         == if p < q && q[|p|] in ks then AsSeq(LeafAt(v.fields[q[|p|]], q[|p| + 1..])) else []
    decreases v, |ks|
  {
    if ks != [] {
      var k := ks[0];
      HeadOnce(ks);
      var child := ChildPath(prefix, k);
      ChildSegments(prefix, k);
      BelowChild(p, q, k);
      FlattenReads(child, v.fields[k], source, path, p + [k], q);
      FlattenKeysReads(prefix, v, ks[1..], source, path, p, q);
      ValuesAppend(Flatten(child, v.fields[k], source), FlattenKeys(prefix, v, ks[1..], source), path);
    }
  }

  /** A payload with addressable keys contributes to a path exactly the leaf it has there. */
  lemma {:induction false} PayloadReads(v: Json, source: nat, path: string)
    requires v.Object? && Addressable(v)
    ensures Values(Flatten("", v, source), path) == AsSeq(LeafAt(v, Split(path)))
  {
    FlattenReads("", v, source, path, [], Split(path));
    assert Split(path)[0..] == Split(path);
  }
}
