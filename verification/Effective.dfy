/** The effective payload of a list of assigned profiles: what it contains, and how it behaves when profiles are
    reordered, merged in stages, or merged again. */
module Effective {
  import opened Text
  import opened Json
  import opened Merging
  import opened Paths
  import opened Rebuild

  /** An assigned profile whose payload has been decoded. */
  datatype Profile = Profile(id: nat, name: string, fields: map<string, Json>)

  function Contributed(p: Profile): seq<Entry> { Flatten("", Object(p.fields), p.id) }

  /** All contributions, profile by profile. */
  function Entries(ps: seq<Profile>): seq<Entry> {
    if ps == [] then [] else Contributed(ps[0]) + Entries(ps[1..])
  }

  /** The merged value of every contributed path. */
  function MergedLeaves(es: seq<Entry>): map<string, Json> {
    map p | p in PathsOf(es) :: (ValuesWhere(es, p); MergedValue(PathLeaf(p), Values(es, p)))
  }

  function EffectivePayload(ps: seq<Profile>): map<string, Json> {
    Unflatten(MergedLeaves(Entries(ps)))
  }

  // ----- the table -----

  lemma {:induction false} EntriesAppend(ps: seq<Profile>, qs: seq<Profile>)
    ensures Entries(ps + qs) == Entries(ps) + Entries(qs)
  {
    if ps == [] {
      assert ps + qs == qs;
    } else {
      assert (ps + qs)[1..] == ps[1..] + qs;
      EntriesAppend(ps[1..], qs);
    }
  }

  lemma {:induction false} PathsAppend(a: seq<Entry>, b: seq<Entry>)
    ensures PathsOf(a + b) == PathsOf(a) + PathsOf(b)
  {
    assert forall e :: e in a + b <==> e in a || e in b;
  }

  lemma {:induction false} EntriesAreLeaves(ps: seq<Profile>)
    ensures forall e | e in Entries(ps) :: IsLeaf(e.value) && e.path != ""
    ensures forall e | e in Entries(ps) :: exists p | p in ps :: p.id == e.source
  {
    if ps != [] {
      FlattenYieldsLeaves("", Object(ps[0].fields), ps[0].id);
      EntriesAreLeaves(ps[1..]);
      forall e | e in Entries(ps) ensures exists p | p in ps :: p.id == e.source {
        if e in Contributed(ps[0]) {
          assert ps[0] in ps;
        } else {
          assert e in Entries(ps[1..]);
          var p :| p in ps[1..] && p.id == e.source;
          assert p in ps;
        }
      }
    }
  }

  predicate LeafEntries(es: seq<Entry>) { forall e | e in es :: IsLeaf(e.value) && e.path != "" }

  lemma {:induction false} MergedLeavesAreLeaves(es: seq<Entry>)
    requires LeafEntries(es)
    ensures MergedLeaves(es).Keys == PathsOf(es)
    ensures forall p | p in MergedLeaves(es) :: p != "" && IsLeaf(MergedLeaves(es)[p])
  {
    forall p | p in MergedLeaves(es) ensures p != "" && IsLeaf(MergedLeaves(es)[p]) {
      ValuesWhere(es, p);
      MergedIsLeaf(PathLeaf(p), Values(es, p));
    }
  }

  /** The leaf of a table's merge result at a place. */
  function MergedAt(es: seq<Entry>, path: string): Option<Json> {
    if Deepest(PathsOf(es), path) then
      ValuesWhere(es, path);
      Some(MergedValue(PathLeaf(path), Values(es, path)))
    else None
  }

  /** The effective payload has exactly the deepest contributed paths as its leaves, each with the merged value of
      its own contributions. */
  lemma {:induction false} EffectiveReads(es: seq<Entry>, segs: seq<string>)
    requires LeafEntries(es) && segs != []
    ensures LeafAt(Object(Unflatten(MergedLeaves(es))), segs)
         == if DotFreeSegments(segs) then MergedAt(es, Join(segs)) else None
  {
    MergedLeavesAreLeaves(es);
    UnflattenReads(MergedLeaves(es), segs);
    if Join(segs) == "" {
      assert forall e | e in es :: e.path != "";
    }
  }

  ghost predicate SameMerge(a: seq<Entry>, b: seq<Entry>) {
    forall path: string :: MergedAt(a, path) == MergedAt(b, path)
  }

  ghost predicate SameBelowRoot(a: map<string, Json>, b: map<string, Json>) {
    forall segs: seq<string> | segs != [] :: LeafAt(Object(a), segs) == LeafAt(Object(b), segs)
  }

  lemma {:induction false} SharedKey(a: map<string, Json>, b: map<string, Json>, k: string)
    requires SameBelowRoot(a, b) && k in a
    ensures k in b
  {
    var rest := SomeLeaf(a[k]);
    assert ([k] + rest)[1..] == rest;
    assert LeafAt(Object(b), [k] + rest) == LeafAt(Object(a), [k] + rest);
  }

  lemma {:induction false} LeavesDetermineRoot(a: map<string, Json>, b: map<string, Json>)
    requires SameBelowRoot(a, b)
    ensures a == b
  {
    forall k | k in a ensures k in b && a[k] == b[k] {
      SharedKey(a, b, k);
      forall segs: seq<string> ensures LeafAt(a[k], segs) == LeafAt(b[k], segs) {
        assert ([k] + segs)[1..] == segs;
        assert LeafAt(Object(b), [k] + segs) == LeafAt(Object(a), [k] + segs);
      }
      LeavesDetermine(a[k], b[k]);
    }
    forall k | k in b ensures k in a {
      SharedKey(b, a, k);
    }
  }

  /** Two tables rebuild to the same object exactly when they merge to the same value at every place. */
  lemma {:induction false} SamePayloadIffSameMerge(a: seq<Entry>, b: seq<Entry>)
    requires LeafEntries(a) && LeafEntries(b)
    ensures Unflatten(MergedLeaves(a)) == Unflatten(MergedLeaves(b)) <==> SameMerge(a, b)
  {
    var m, n := Unflatten(MergedLeaves(a)), Unflatten(MergedLeaves(b));
    if SameMerge(a, b) {
      forall segs: seq<string> | segs != [] ensures LeafAt(Object(m), segs) == LeafAt(Object(n), segs) {
        EffectiveReads(a, segs);
        EffectiveReads(b, segs);
      }
      LeavesDetermineRoot(m, n);
    }
    if m == n {
      forall path: string ensures MergedAt(a, path) == MergedAt(b, path) {
        EffectiveReads(a, Split(path));
        EffectiveReads(b, Split(path));
        JoinSplit(path);
        SplitSegmentsDotFree(path);
      }
    }
  }

  // ----- a single profile -----

  lemma {:induction false} EntriesSingle(p: Profile)
    ensures Entries([p]) == Contributed(p)
  {
    assert [p][1..] == [];
    assert Entries([p]) == Contributed(p) + [];
  }

  lemma {:induction false} SingleValues(p: Profile, path: string)
    requires Addressable(Object(p.fields))
    ensures Values(Entries([p]), path) == AsSeq(LeafAt(Object(p.fields), Split(path)))
    ensures path in PathsOf(Entries([p])) <==> LeafAt(Object(p.fields), Split(path)).Some?
  {
    EntriesSingle(p);
    PayloadReads(Object(p.fields), p.id, path);
    ValuesWhere(Entries([p]), path);
  }

  /** A payload has no leaf below another leaf. */
  lemma {:induction false} LeavesApart(p: Profile, path: string, q: string)
    requires LeafAt(Object(p.fields), Split(path)).Some? && LeafAt(Object(p.fields), Split(q)).Some?
    ensures !Extends(q, path)
  {
    ExtendsIsProperPrefix(q, path);
    if Extends(q, path) {
      var rest := Split(q)[|Split(path)|..];
      assert Split(q) == Split(path) + rest;
      NothingBelowLeaf(Object(p.fields), Split(path), rest);
    }
  }

  /** The table of one profile with addressable keys merges to the profile's own leaves. */
  lemma {:induction false} SingleMerges(p: Profile, path: string)
    requires Addressable(Object(p.fields))
    ensures MergedAt(Entries([p]), path) == LeafAt(Object(p.fields), Split(path))
  {
    SingleValues(p, path);
    var leaf := LeafAt(Object(p.fields), Split(path));
    if leaf.Some? {
      forall q | q in PathsOf(Entries([p])) ensures !Extends(q, path) {
        SingleValues(p, q);
        LeavesApart(p, path, q);
      }
      MergedSingle(PathLeaf(path), leaf.value);
    }
  }

  lemma {:induction false} DottedKeyHasNoLeaf(v: Json, segs: seq<string>)
    requires DotFreeKeys(v) && !DotFreeSegments(segs)
    ensures LeafAt(v, segs) == None
    decreases segs
  {
    if v.Object? && segs[0] in v.fields {
      assert segs == [segs[0]] + segs[1..];
      DottedKeyHasNoLeaf(v.fields[segs[0]], segs[1..]);
    }
  }

  lemma {:induction false} FlattenLeadingDot(prefix: string, v: Json, source: nat)
    requires DotFreeKeys(v) && !LeadingDot(prefix)
    ensures forall e | e in Flatten(prefix, v, source) :: !LeadingDot(e.path)
    decreases v
  {
    if v.Object? && !(v.fields == map[] && prefix != "") {
      FlattenKeysLeadingDot(prefix, v, SortedKeys(v.fields.Keys), source);
    }
  }

  lemma {:induction false} FlattenKeysLeadingDot(prefix: string, v: Json, ks: seq<string>, source: nat)
    requires v.Object? && forall k | k in ks :: k in v.fields
    requires DotFreeKeys(v) && !LeadingDot(prefix)
    ensures forall e | e in FlattenKeys(prefix, v, ks, source) :: !LeadingDot(e.path)
    decreases v, |ks|
  {
    if ks != [] {
      var k := ks[0];
      assert k in ks;
      assert k != "" ==> k[0] in k;
      assert !LeadingDot(ChildPath(prefix, k));
      FlattenLeadingDot(ChildPath(prefix, k), v.fields[k], source);
      FlattenKeysLeadingDot(prefix, v, ks[1..], source);
    }
  }

  predicate NoLeadingDot(es: seq<Entry>) { forall e | e in es :: !LeadingDot(e.path) }

  /** Effective payloads have dot-free keys; the empty key appears at the root exactly if a contributed path
      begins with a dot. */
  lemma {:induction false} EffectiveKeys(ps: seq<Profile>)
    ensures DotFreeKeys(Object(EffectivePayload(ps)))
    ensures Addressable(Object(EffectivePayload(ps))) <==> NoLeadingDot(Entries(ps))
  {
    var es := Entries(ps);
    EntriesAreLeaves(ps);
    MergedLeavesAreLeaves(es);
    UnflattenKeys(MergedLeaves(es));
    if !NoLeadingDot(es) {
      var e :| e in es && LeadingDot(e.path);
      assert e.path in MergedLeaves(es);
    }
  }

  /** Taking a payload apart and rebuilding it gives it back exactly when no key holds a dot and no key at the
      root is empty. Nested `{}`, `[]` and null survive. */
  lemma {:induction false} RoundTripIffAddressable(p: Profile)
    ensures EffectivePayload([p]) == p.fields <==> Addressable(Object(p.fields))
  {
    var es := Entries([p]);
    EntriesAreLeaves([p]);
    if Addressable(Object(p.fields)) {
      forall segs: seq<string> | segs != []
        ensures LeafAt(Object(EffectivePayload([p])), segs) == LeafAt(Object(p.fields), segs)
      {
        EffectiveReads(es, segs);
        if DotFreeSegments(segs) {
          SingleMerges(p, Join(segs));
          SplitJoin(segs);
        } else {
          DottedKeyHasNoLeaf(Object(p.fields), segs);
        }
      }
      LeavesDetermineRoot(EffectivePayload([p]), p.fields);
    }
    EffectiveKeys([p]);
    if EffectivePayload([p]) == p.fields {
      FlattenLeadingDot("", Object(p.fields), p.id);
      EntriesSingle(p);
    }
  }

  /** Merging an effective payload again changes nothing, unless a contributed path begins with a dot. */
  lemma {:induction false} MergingAgainChangesNothing(ps: seq<Profile>, id: nat, name: string)
    ensures EffectivePayload([Profile(id, name, EffectivePayload(ps))]) == EffectivePayload(ps)
            <==> NoLeadingDot(Entries(ps))
  {
    EffectiveKeys(ps);
    RoundTripIffAddressable(Profile(id, name, EffectivePayload(ps)));
  }
}
