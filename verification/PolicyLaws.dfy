/** Laws of the effective payload: the order of the assigned profiles, and merging them in two stages. */
module PolicyLaws {
  import opened Text
  import opened Json
  import opened Merging
  import opened Grouping
  import opened Paths
  import opened Rebuild
  import opened Effective

  /** What the profiles contribute to a path, in order. */
  function At(ps: seq<Profile>, path: string): seq<Json> { Values(Entries(ps), path) }

  lemma {:induction false} AtAppend(ps: seq<Profile>, qs: seq<Profile>, path: string)
    ensures At(ps + qs, path) == At(ps, path) + At(qs, path)
  {
    EntriesAppend(ps, qs);
    ValuesAppend(Entries(ps), Entries(qs), path);
  }

  lemma {:induction false} AtNonEmpty(ps: seq<Profile>, path: string)
    ensures At(ps, path) != [] <==> path in PathsOf(Entries(ps))
  {
    ValuesWhere(Entries(ps), path);
  }

  predicate ContributesTo(p: Profile, path: string) { At([p], path) != [] }

  lemma {:induction false} FirstContributor(qs: seq<Profile>, path: string) returns (p: Profile)
    requires At(qs, path) != []
    ensures p in qs && ContributesTo(p, path) && At([p], path)[0] == At(qs, path)[0]
  {
    assert qs == [qs[0]] + qs[1..];
    AtAppend([qs[0]], qs[1..], path);
    if ContributesTo(qs[0], path) {
      p := qs[0];
    } else {
      assert At(qs, path) == At(qs[1..], path);
      p := FirstContributor(qs[1..], path);
    }
  }

  lemma {:induction false} SameProfiles(ps: seq<Profile>, qs: seq<Profile>)
    requires multiset(ps) == multiset(qs)
    ensures forall p :: p in ps <==> p in qs
  {
    assert forall p :: p in ps <==> p in multiset(ps);
    assert forall p :: p in qs <==> p in multiset(qs);
  }

  function Without(ps: seq<Profile>, i: nat): seq<Profile>
    requires i < |ps|
  {
    ps[..i] + ps[i + 1..]
  }

  lemma {:induction false} WithoutElements(ps: seq<Profile>, i: nat)
    requires i < |ps|
    ensures multiset(ps) == multiset(Without(ps, i)) + multiset{ps[i]}
    ensures multiset(Without(ps, i)) == multiset(ps) - multiset{ps[i]}
  {
    assert ps == ps[..i] + ([ps[i]] + ps[i + 1..]);
  }

  /** Moving one profile to the front keeps the contributions up to order. */
  lemma {:induction false} AtMoved(ps: seq<Profile>, i: nat, path: string)
    requires i < |ps|
    ensures multiset(At(ps, path)) == multiset(At([ps[i]], path)) + multiset(At(Without(ps, i), path))
  {
    assert ps == ps[..i] + ([ps[i]] + ps[i + 1..]);
    AtAppend(ps[..i], [ps[i]] + ps[i + 1..], path);
    AtAppend([ps[i]], ps[i + 1..], path);
    AtAppend(ps[..i], ps[i + 1..], path);
  }

  lemma {:induction false} FindProfile(ps: seq<Profile>, qs: seq<Profile>) returns (i: nat)
    requires ps != [] && multiset(ps) == multiset(qs)
    ensures i < |qs| && qs[i] == ps[0] && multiset(Without(ps, 0)) == multiset(Without(qs, i))
  {
    assert ps[0] in multiset(qs);
    i :| 0 <= i < |qs| && qs[i] == ps[0];
    WithoutElements(ps, 0);
    WithoutElements(qs, i);
  }

  lemma {:induction false} AtReordered(ps: seq<Profile>, qs: seq<Profile>, path: string)
    requires multiset(ps) == multiset(qs)
    ensures SameElements(At(ps, path), At(qs, path))
    decreases |ps|
  {
    if ps == [] {
      assert |multiset(qs)| == |qs|;
    } else {
      var i := FindProfile(ps, qs);
      AtMoved(ps, 0, path);
      AtMoved(qs, i, path);
      AtReordered(Without(ps, 0), Without(qs, i), path);
    }
  }

  lemma {:induction false} EntriesReordered(ps: seq<Profile>, qs: seq<Profile>)
    requires multiset(ps) == multiset(qs)
    ensures forall e :: e in Entries(ps) <==> e in Entries(qs)
    decreases |ps|
  {
    if ps == [] {
      assert |multiset(qs)| == 0;
    } else {
      var i := FindProfile(ps, qs);
      assert Without(ps, 0) == ps[1..];
      EntriesReordered(ps[1..], Without(qs, i));
      assert ps == [ps[0]] + ps[1..] && qs == qs[..i] + ([qs[i]] + qs[i + 1..]);
      EntriesAppend([ps[0]], ps[1..]);
      EntriesAppend(qs[..i], [qs[i]] + qs[i + 1..]);
      EntriesAppend([qs[i]], qs[i + 1..]);
      EntriesAppend(qs[..i], qs[i + 1..]);
    }
  }

  lemma {:induction false} PathsReordered(ps: seq<Profile>, qs: seq<Profile>)
    requires multiset(ps) == multiset(qs)
    ensures PathsOf(Entries(ps)) == PathsOf(Entries(qs))
  {
    forall path ensures path in PathsOf(Entries(ps)) <==> path in PathsOf(Entries(qs)) {
      AtReordered(ps, qs, path);
      AtNonEmpty(ps, path);
      AtNonEmpty(qs, path);
      assert |multiset(At(ps, path))| == |At(ps, path)| && |multiset(At(qs, path))| == |At(qs, path)|;
    }
  }

  ghost predicate ConfluentWhereShown(ps: seq<Profile>) {
    forall path | Deepest(PathsOf(Entries(ps)), path) ::
      At(ps, path) != [] && Confluent(PathLeaf(path), At(ps, path))
  }

  /** The effective payload does not depend on the order of the profiles when the contributions to every path it
      shows are confluent; for any keys. */
  lemma {:induction false} OrderDoesNotMatter(ps: seq<Profile>, qs: seq<Profile>)
    requires multiset(ps) == multiset(qs) && ConfluentWhereShown(ps)
    ensures EffectivePayload(ps) == EffectivePayload(qs)
  {
    EntriesAreLeaves(ps);
    EntriesAreLeaves(qs);
    PathsReordered(ps, qs);
    forall path: string ensures MergedAt(Entries(ps), path) == MergedAt(Entries(qs), path) {
      if Deepest(PathsOf(Entries(ps)), path) {
        AtReordered(ps, qs, path);
        ConfluentIsEnough(PathLeaf(path), At(ps, path), At(qs, path));
      }
    }
    SamePayloadIffSameMerge(Entries(ps), Entries(qs));
  }

  predicate OneEach(ps: seq<Profile>, path: string) {
    forall p | p in ps :: |At([p], path)| <= 1
  }

  lemma {:induction false} Contributor(ps: seq<Profile>, path: string, x: Json) returns (i: nat)
    requires x in At(ps, path) && OneEach(ps, path)
    ensures i < |ps| && At([ps[i]], path) == [x]
  {
    assert ps == [ps[0]] + ps[1..];
    AtAppend([ps[0]], ps[1..], path);
    if x in At([ps[0]], path) {
      assert ps[0] in ps;
      i := 0;
    } else {
      i := Contributor(ps[1..], path, x);
      i := i + 1;
    }
  }

  /** Taking the contributor of one value out takes out just that value. */
  lemma {:induction false} RestContributes(ps: seq<Profile>, i: nat, path: string, us: seq<Json>)
    requires i < |ps| && us != [] && At([ps[i]], path) == [us[0]] && SameElements(us, At(ps, path))
    ensures SameElements(us[1..], At(Without(ps, i), path))
  {
    AtMoved(ps, i, path);
    TailElements(us);
  }

  lemma {:induction false} PutInFront(ps: seq<Profile>, i: nat, rest: seq<Profile>, path: string, us: seq<Json>)
    requires i < |ps| && us != [] && multiset(rest) == multiset(Without(ps, i))
    requires At([ps[i]], path) == [us[0]] && At(rest, path) == us[1..]
    ensures multiset([ps[i]] + rest) == multiset(ps) && At([ps[i]] + rest, path) == us
  {
    WithoutElements(ps, i);
    AtAppend([ps[i]], rest, path);
  }

  /** Every order of the contributions to a path comes from some order of the profiles. */
  lemma {:induction false} Realize(ps: seq<Profile>, path: string, us: seq<Json>) returns (qs: seq<Profile>)
    requires OneEach(ps, path) && SameElements(us, At(ps, path))
    ensures multiset(qs) == multiset(ps) && At(qs, path) == us
    decreases |us|
  {
    SameMembers(us, At(ps, path));
    if us == [] {
      qs := ps;
    } else {
      var i := Contributor(ps, path, us[0]);
      RestContributes(ps, i, path, us);
      assert forall p | p in Without(ps, i) :: p in ps;
      var rest := Realize(Without(ps, i), path, us[1..]);
      qs := [ps[i]] + rest;
      PutInFront(ps, i, rest, path, us);
    }
  }

  ghost predicate PayloadOrderIndependent(ps: seq<Profile>) {
    forall qs: seq<Profile> | multiset(qs) == multiset(ps) :: EffectivePayload(qs) == EffectivePayload(ps)
  }

  lemma {:induction false} AddressableOneEach(ps: seq<Profile>, path: string)
    requires forall p | p in ps :: Addressable(Object(p.fields))
    ensures OneEach(ps, path)
  {
    forall p | p in ps ensures |At([p], path)| <= 1 {
      SingleValues(p, path);
    }
  }

  lemma {:induction false} ReorderedPath(ps: seq<Profile>, qs: seq<Profile>, path: string)
    requires multiset(qs) == multiset(ps) && EffectivePayload(qs) == EffectivePayload(ps)
    requires Deepest(PathsOf(Entries(ps)), path)
    ensures At(qs, path) != [] && At(ps, path) != []
    ensures MergedValue(PathLeaf(path), At(qs, path)) == MergedValue(PathLeaf(path), At(ps, path))
  {
    EntriesAreLeaves(ps);
    EntriesAreLeaves(qs);
    PathsReordered(ps, qs);
    AtNonEmpty(ps, path);
    AtNonEmpty(qs, path);
    SamePayloadIffSameMerge(Entries(qs), Entries(ps));
    assert MergedAt(Entries(qs), path) == MergedAt(Entries(ps), path);
  }

  /** No profile contributes twice to a path that the payload shows, as it could by a key that holds a dot. */
  ghost predicate OneEachWhereShown(ps: seq<Profile>) {
    forall path | Deepest(PathsOf(Entries(ps)), path) :: OneEach(ps, path)
  }

  lemma {:induction false} AddressableShownOnce(ps: seq<Profile>)
    requires forall p | p in ps :: Addressable(Object(p.fields))
    ensures OneEachWhereShown(ps)
  {
    forall path | Deepest(PathsOf(Entries(ps)), path) ensures OneEach(ps, path) { AddressableOneEach(ps, path); }
  }

  /** If no profile contributes twice to a shown path, the payload is the same for every order of the profiles exactly
      when the contributions to every path it shows are confluent. */
  lemma {:induction false} PayloadOrderIndependentIff(ps: seq<Profile>)
    requires OneEachWhereShown(ps)
    ensures PayloadOrderIndependent(ps) <==> ConfluentWhereShown(ps)
  {
    if ConfluentWhereShown(ps) {
      forall qs: seq<Profile> | multiset(qs) == multiset(ps) ensures EffectivePayload(qs) == EffectivePayload(ps) {
        OrderDoesNotMatter(ps, qs);
      }
    }
    if PayloadOrderIndependent(ps) {
      forall path | Deepest(PathsOf(Entries(ps)), path)
        ensures At(ps, path) != [] && Confluent(PathLeaf(path), At(ps, path))
      {
        AtNonEmpty(ps, path);
        var vs, key := At(ps, path), PathLeaf(path);
        forall us: seq<Json> | us != [] && SameElements(vs, us)
          ensures MergedValue(key, us) == MergedValue(key, vs)
        {
          var qs := Realize(ps, path, us);
          ReorderedPath(ps, qs, path);
        }
        OrderIndependentIffConfluent(key, vs);
      }
    }
  }

  // ----- two stages -----

  /** An effective payload, assigned as a profile of its own. */
  function Staged(ps: seq<Profile>, id: nat): Profile { Profile(id, "", EffectivePayload(ps)) }

  lemma {:induction false} StagedReads(ps: seq<Profile>, id: nat, path: string)
    requires NoLeadingDot(Entries(ps))
    ensures At([Staged(ps, id)], path) == AsSeq(MergedAt(Entries(ps), path))
  {
    EffectiveKeys(ps);
    SingleValues(Staged(ps, id), path);
    EntriesAreLeaves(ps);
    EffectiveReads(Entries(ps), Split(path));
    JoinSplit(path);
    SplitSegmentsDotFree(path);
  }

  lemma {:induction false} EntriesPair(a: Profile, b: Profile)
    ensures Entries([a, b]) == Entries([a]) + Entries([b])
  {
    assert [a, b] == [a] + [b];
    EntriesAppend([a], [b]);
  }

  lemma {:induction false} PairAt(a: Profile, b: Profile, path: string)
    ensures At([a, b], path) == At([a], path) + At([b], path)
  {
    EntriesPair(a, b);
    ValuesAppend(Entries([a]), Entries([b]), path);
  }

  function DeepestPaths(paths: set<string>): set<string> {
    set p | p in paths && Deepest(paths, p)
  }

  /** Dropping covered paths first does not change which paths are deepest in a union. */
  lemma {:induction false} DeepestOfUnion(a: set<string>, b: set<string>, p: string)
    ensures Deepest(a + b, p) <==> Deepest(DeepestPaths(a) + DeepestPaths(b), p)
  {
    if p in a + b && !Deepest(a + b, p) {
      var q :| q in a + b && Extends(q, p);
      var d := SomeDeepest(if q in a then a else b, q);
      if d != q { ExtendsTransitive(d, q, p); }
      assert d in DeepestPaths(a) + DeepestPaths(b);
    }
    if Deepest(a + b, p) {
      assert p in a ==> Deepest(a, p);
      assert p in b ==> Deepest(b, p);
    }
  }

  lemma {:induction false} StagedPaths(ps: seq<Profile>, id: nat)
    requires NoLeadingDot(Entries(ps))
    ensures PathsOf(Entries([Staged(ps, id)])) == DeepestPaths(PathsOf(Entries(ps)))
  {
    forall path ensures path in PathsOf(Entries([Staged(ps, id)])) <==> path in DeepestPaths(PathsOf(Entries(ps))) {
      StagedReads(ps, id, path);
      AtNonEmpty([Staged(ps, id)], path);
    }
  }

  lemma {:induction false} PairPaths(a: Profile, b: Profile)
    ensures PathsOf(Entries([a, b])) == PathsOf(Entries([a])) + PathsOf(Entries([b]))
  {
    EntriesPair(a, b);
    PathsAppend(Entries([a]), Entries([b]));
  }

  /** The contributions of both sides to every path shown by both merge in two steps as in one. */
  ghost predicate SharedPathsCompose(ps: seq<Profile>, qs: seq<Profile>) {
    forall path | Deepest(PathsOf(Entries(ps + qs)), path) && At(ps, path) != [] && At(qs, path) != [] ::
      Composes(PathLeaf(path), At(ps, path), At(qs, path))
  }

  /** At a path shown by the whole, merging in two stages gives the merge of the two stage results. */
  lemma {:induction false} StagesAt(ps: seq<Profile>, qs: seq<Profile>, a: nat, b: nat, path: string)
    requires NoLeadingDot(Entries(ps + qs)) && Deepest(PathsOf(Entries(ps + qs)), path)
    ensures NoLeadingDot(Entries(ps)) && NoLeadingDot(Entries(qs))
    ensures var key, vs, ws := PathLeaf(path), At(ps, path), At(qs, path);
            At([Staged(ps, a), Staged(qs, b)], path)
            == (if vs == [] then [] else [MergedValue(key, vs)]) + (if ws == [] then [] else [MergedValue(key, ws)])
  {
    EntriesAppend(ps, qs);
    PathsAppend(Entries(ps), Entries(qs));
    AtNonEmpty(ps, path);
    AtNonEmpty(qs, path);
    StagedReads(ps, a, path);
    StagedReads(qs, b, path);
    PairAt(Staged(ps, a), Staged(qs, b), path);
    assert path in PathsOf(Entries(ps)) ==> Deepest(PathsOf(Entries(ps)), path);
    assert path in PathsOf(Entries(qs)) ==> Deepest(PathsOf(Entries(qs)), path);
  }

  lemma {:induction false} StagesDeepest(ps: seq<Profile>, qs: seq<Profile>, a: nat, b: nat, path: string)
    requires NoLeadingDot(Entries(ps + qs))
    ensures Deepest(PathsOf(Entries(ps + qs)), path)
       <==> Deepest(PathsOf(Entries([Staged(ps, a), Staged(qs, b)])), path)
  {
    EntriesAppend(ps, qs);
    PathsAppend(Entries(ps), Entries(qs));
    StagedPaths(ps, a);
    StagedPaths(qs, b);
    PairPaths(Staged(ps, a), Staged(qs, b));
    DeepestOfUnion(PathsOf(Entries(ps)), PathsOf(Entries(qs)), path);
  }

  lemma {:induction false} TwoSteps(key: string, vs: seq<Json>, ws: seq<Json>, two: seq<Json>)
    requires vs != [] || ws != []
    requires two == (if vs == [] then [] else [MergedValue(key, vs)]) + (if ws == [] then [] else [MergedValue(key, ws)])
    ensures MergedValue(key, vs + ws) == MergedValue(key, two)
       <==> (vs != [] && ws != [] ==> Composes(key, vs, ws))
  {
    if vs == [] {
      assert vs + ws == ws;
      MergedSingle(key, MergedValue(key, ws));
    } else if ws == [] {
      assert vs + ws == vs;
      MergedSingle(key, MergedValue(key, vs));
    } else {
      assert two == [MergedValue(key, vs), MergedValue(key, ws)];
    }
  }

  lemma {:induction false} StagesMergeAt(ps: seq<Profile>, qs: seq<Profile>, a: nat, b: nat, path: string)
    requires NoLeadingDot(Entries(ps + qs)) && Deepest(PathsOf(Entries(ps + qs)), path)
    ensures MergedAt(Entries(ps + qs), path) == MergedAt(Entries([Staged(ps, a), Staged(qs, b)]), path)
       <==> (At(ps, path) != [] && At(qs, path) != [] ==> Composes(PathLeaf(path), At(ps, path), At(qs, path)))
  {
    AtAppend(ps, qs, path);
    AtNonEmpty(ps + qs, path);
    StagesAt(ps, qs, a, b, path);
    StagesDeepest(ps, qs, a, b, path);
    TwoSteps(PathLeaf(path), At(ps, path), At(qs, path), At([Staged(ps, a), Staged(qs, b)], path));
  }

  /** Merging two groups of profiles first and then their effective payloads gives the effective payload of all
      profiles exactly when no contributed path begins with a dot and the contributions to every path that both
      groups contribute to compose. A deeper path of either group hides a shallower one in both ways. */
  lemma {:induction false} TwoStagesIff(ps: seq<Profile>, qs: seq<Profile>, a: nat, b: nat)
    ensures EffectivePayload([Staged(ps, a), Staged(qs, b)]) == EffectivePayload(ps + qs)
       <==> NoLeadingDot(Entries(ps + qs)) && SharedPathsCompose(ps, qs)
  {
    var stages, all := [Staged(ps, a), Staged(qs, b)], ps + qs;
    EntriesAreLeaves(stages);
    EntriesAreLeaves(all);
    if NoLeadingDot(Entries(all)) {
      forall path: string
        ensures MergedAt(Entries(all), path) == MergedAt(Entries(stages), path)
           <==> (Deepest(PathsOf(Entries(all)), path) && At(ps, path) != [] && At(qs, path) != []
                 ==> Composes(PathLeaf(path), At(ps, path), At(qs, path)))
      {
        StagesDeepest(ps, qs, a, b, path);
        if Deepest(PathsOf(Entries(all)), path) {
          StagesMergeAt(ps, qs, a, b, path);
        }
      }
      SamePayloadIffSameMerge(Entries(all), Entries(stages));
    } else {
      StagesHaveNoEmptyKey(ps, qs, a, b);
      EffectiveKeys(all);
      EffectiveKeys(stages);
    }
  }

  lemma {:induction false} StagedHasNoEmptyKey(ps: seq<Profile>, a: nat)
    ensures NoLeadingDot(Entries([Staged(ps, a)]))
  {
    EffectiveKeys(ps);
    FlattenLeadingDot("", Object(EffectivePayload(ps)), a);
    EntriesSingle(Staged(ps, a));
  }

  lemma {:induction false} StagesHaveNoEmptyKey(ps: seq<Profile>, qs: seq<Profile>, a: nat, b: nat)
    ensures NoLeadingDot(Entries([Staged(ps, a), Staged(qs, b)]))
  {
    StagedHasNoEmptyKey(ps, a);
    StagedHasNoEmptyKey(qs, b);
    EntriesPair(Staged(ps, a), Staged(qs, b));
  }

  /** In particular: no path beginning with a dot, and contributions that group well. */
  lemma {:induction false} TwoStagesSuffice(ps: seq<Profile>, qs: seq<Profile>, a: nat, b: nat)
    requires NoLeadingDot(Entries(ps + qs))
    requires forall path | Deepest(PathsOf(Entries(ps + qs)), path) :: GroupsWell(PathLeaf(path), At(ps + qs, path))
    ensures EffectivePayload([Staged(ps, a), Staged(qs, b)]) == EffectivePayload(ps + qs)
  {
    forall path | Deepest(PathsOf(Entries(ps + qs)), path) && At(ps, path) != [] && At(qs, path) != []
      ensures Composes(PathLeaf(path), At(ps, path), At(qs, path))
    {
      AtAppend(ps, qs, path);
      GroupsWellIsEnough(PathLeaf(path), At(ps, path), At(qs, path));
    }
    TwoStagesIff(ps, qs, a, b);
  }
}
