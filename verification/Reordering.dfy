/** When the effective payload depends on the order of the profiles, also for profiles that contribute to a path more than
    once, as a key that holds a dot makes possible. */
module Reordering {
  import opened Text
  import opened Json
  import opened Restrictive
  import opened Merging
  import opened Paths
  import opened Rebuild
  import opened Effective
  import opened PolicyLaws

  /** What lists merge to if this one stands first. */
  function ListOutcome(head: Json, vs: seq<Json>): Json
    requires vs != []
  {
    if AllEqual(vs) || !IsStringArray(head) then head
    else if forall v | v in vs :: IsStringArray(v) then Union(vs)
    else FoldPick("", vs)
  }

  lemma {:induction false} FirstListDecides(vs: seq<Json>, us: seq<Json>)
    requires vs != [] && us != [] && AllArrays(vs) && SameElements(us, vs)
    ensures AllArrays(us) && MergedArrays(us) == ListOutcome(us[0], vs)
  {
    SameMembers(us, vs);
    assert us[0] in us && vs[0] in vs;
    if AllEqual(vs) {
      assert AllEqual(us);
    } else {
      assert !AllEqual(us);
      assert StringsOf(us) == StringsOf(vs);
      FoldIsTextLeast(vs);
      FoldIsTextLeast(us);
      TextLeastUnique(vs, FoldPick("", us), FoldPick("", vs));
    }
  }

  /** Whichever contributing profile comes first, its first list leads to the same result. */
  predicate HeadsAgree(ps: seq<Profile>, path: string)
    requires At(ps, path) != []
  {
    forall p, q | p in ps && q in ps && ContributesTo(p, path) && ContributesTo(q, path) ::
      ListOutcome(At([p], path)[0], At(ps, path)) == ListOutcome(At([q], path)[0], At(ps, path))
  }

  /** The condition, checkable on the contributions, for a path to merge alike in every order of the profiles. */
  predicate Settled(ps: seq<Profile>, path: string) {
    At(ps, path) != []
    && if AllArrays(At(ps, path)) then HeadsAgree(ps, path) else !TriadOnTop(PathLeaf(path), At(ps, path))
  }

  ghost predicate SettledWhereShown(ps: seq<Profile>) {
    forall path | Deepest(PathsOf(Entries(ps)), path) :: Settled(ps, path)
  }

  /** Where true, false and null meet at a deny key, nothing outranks them, and no profile contributes twice. */
  ghost predicate TriadsApart(ps: seq<Profile>) {
    forall path | Deepest(PathsOf(Entries(ps)), path) && TriadOnTop(PathLeaf(path), At(ps, path)) :: OneEach(ps, path)
  }

  /** A settled path merges alike in every order. */
  lemma {:induction false} SettledIsEnough(ps: seq<Profile>, qs: seq<Profile>, path: string)
    requires multiset(qs) == multiset(ps) && Settled(ps, path)
    ensures At(qs, path) != [] && MergedValue(PathLeaf(path), At(qs, path)) == MergedValue(PathLeaf(path), At(ps, path))
  {
    var key, vs, us := PathLeaf(path), At(ps, path), At(qs, path);
    AtReordered(ps, qs, path);
    SameMembers(us, vs);
    if AllArrays(vs) {
      SameProfiles(ps, qs);
      var p := FirstContributor(ps, path);
      var q := FirstContributor(qs, path);
      FirstListDecides(vs, vs);
      FirstListDecides(vs, us);
    } else {
      BestSurvivesReordering(key, vs, us);
    }
  }

  lemma {:induction false} InFront(ps: seq<Profile>, p: Profile, path: string) returns (qs: seq<Profile>)
    requires p in ps && ContributesTo(p, path)
    ensures multiset(qs) == multiset(ps) && At(qs, path) != [] && At(qs, path)[0] == At([p], path)[0]
  {
    var i :| 0 <= i < |ps| && ps[i] == p;
    qs := [p] + Without(ps, i);
    WithoutElements(ps, i);
    AtAppend([p], Without(ps, i), path);
  }

  /** Profiles whose lists disagree, each put in front. */
  lemma {:induction false} HeadsDisagree(ps: seq<Profile>, path: string) returns (qs: seq<Profile>, rs: seq<Profile>)
    requires At(ps, path) != [] && AllArrays(At(ps, path)) && !HeadsAgree(ps, path)
    ensures multiset(qs) == multiset(ps) && multiset(rs) == multiset(ps) && At(qs, path) != [] && At(rs, path) != []
    ensures MergedValue(PathLeaf(path), At(qs, path)) != MergedValue(PathLeaf(path), At(rs, path))
  {
    var p, q :| p in ps && q in ps && ContributesTo(p, path) && ContributesTo(q, path)
      && ListOutcome(At([p], path)[0], At(ps, path)) != ListOutcome(At([q], path)[0], At(ps, path));
    qs := InFront(ps, p, path);
    rs := InFront(ps, q, path);
    AtReordered(qs, ps, path);
    AtReordered(rs, ps, path);
    FirstListDecides(At(ps, path), At(qs, path));
    FirstListDecides(At(ps, path), At(rs, path));
  }

  lemma {:induction false} UnsettledDisagrees(ps: seq<Profile>, path: string) returns (qs: seq<Profile>, rs: seq<Profile>)
    requires At(ps, path) != [] && !Settled(ps, path)
    requires TriadOnTop(PathLeaf(path), At(ps, path)) ==> OneEach(ps, path)
    ensures multiset(qs) == multiset(ps) && multiset(rs) == multiset(ps) && At(qs, path) != [] && At(rs, path) != []
    ensures MergedValue(PathLeaf(path), At(qs, path)) != MergedValue(PathLeaf(path), At(rs, path))
  {
    if AllArrays(At(ps, path)) {
      qs, rs := HeadsDisagree(ps, path);
    } else {
      var us, ws := TriadDisagrees(PathLeaf(path), At(ps, path));
      qs := Realize(ps, path, us);
      rs := Realize(ps, path, ws);
    }
  }

  /** Unless the deny-key triad meets a profile that contributes twice: the payload is the same for every order of the
      profiles exactly if every path it shows is settled. For any keys, and any lists. */
  lemma {:induction false} AnyOrderIff(ps: seq<Profile>)
    requires TriadsApart(ps)
    ensures PayloadOrderIndependent(ps) <==> SettledWhereShown(ps)
  {
    if SettledWhereShown(ps) {
      forall qs: seq<Profile> | multiset(qs) == multiset(ps) ensures EffectivePayload(qs) == EffectivePayload(ps) {
        SettledPayload(ps, qs);
      }
    } else {
      var path :| Deepest(PathsOf(Entries(ps)), path) && !Settled(ps, path);
      AtNonEmpty(ps, path);
      var qs, rs := UnsettledDisagrees(ps, path);
      if PayloadOrderIndependent(ps) {
        ReorderedPath(ps, qs, path);
        ReorderedPath(ps, rs, path);
      }
    }
  }

  lemma {:induction false} SettledPayload(ps: seq<Profile>, qs: seq<Profile>)
    requires multiset(qs) == multiset(ps) && SettledWhereShown(ps)
    ensures EffectivePayload(qs) == EffectivePayload(ps)
  {
    EntriesAreLeaves(ps);
    EntriesAreLeaves(qs);
    PathsReordered(ps, qs);
    forall path: string ensures MergedAt(Entries(qs), path) == MergedAt(Entries(ps), path) {
      if Deepest(PathsOf(Entries(ps)), path) { SettledIsEnough(ps, qs, path); }
    }
    SamePayloadIffSameMerge(Entries(qs), Entries(ps));
  }
}
