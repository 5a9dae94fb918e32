/** When every way of merging assigned profiles in two stages gives the same payload as merging them at once. */
module Staging {
  import opened Text
  import opened Json
  import opened Merging
  import opened Grouping
  import opened Paths
  import opened Rebuild
  import opened Effective
  import opened PolicyLaws

  /** However the profiles are ordered and cut into two groups, merging the groups first makes no difference. */
  ghost predicate StagingIndependent(ps: seq<Profile>) {
    forall xs: seq<Profile>, ys: seq<Profile>, a, b | multiset(xs + ys) == multiset(ps) ::
      EffectivePayload([Staged(xs, a), Staged(ys, b)]) == EffectivePayload(xs + ys)
  }

  ghost predicate GroupsWellWhereShown(ps: seq<Profile>) {
    forall path | Deepest(PathsOf(Entries(ps)), path) :: GroupsWell(PathLeaf(path), At(ps, path))
  }

  lemma {:induction false} LeadingDotsReordered(ps: seq<Profile>, qs: seq<Profile>)
    requires multiset(ps) == multiset(qs)
    ensures NoLeadingDot(Entries(ps)) <==> NoLeadingDot(Entries(qs))
  {
    EntriesReordered(ps, qs);
  }

  /** A cut in the contributions to a path comes from a cut in the profiles. */
  lemma {:induction false} CutProfiles(qs: seq<Profile>, path: string, us: seq<Json>, ws: seq<Json>) returns (n: nat)
    requires OneEach(qs, path) && At(qs, path) == us + ws
    ensures n <= |qs| && At(qs[..n], path) == us && At(qs[n..], path) == ws
  {
    if us == [] {
      n := 0;
      assert qs[..0] == [] && qs[0..] == qs && us + ws == ws;
    } else {
      assert qs == [qs[0]] + qs[1..];
      AtAppend([qs[0]], qs[1..], path);
      assert qs[0] in qs;
      var head := At([qs[0]], path);
      var rest := if head == [] then us else us[1..];
      assert At(qs[1..], path) == rest + ws by { CutHead(head, At(qs[1..], path), us, ws); }
      var m := CutProfiles(qs[1..], path, rest, ws);
      n := m + 1;
      assert qs[..n] == [qs[0]] + qs[1..][..m] && qs[n..] == qs[1..][m..];
      AtAppend([qs[0]], qs[1..][..m], path);
      CutHead(head, At(qs[1..], path), us, ws);
    }
  }

  lemma {:induction false} CutHead(head: seq<Json>, tail: seq<Json>, us: seq<Json>, ws: seq<Json>)
    requires |head| <= 1 && us != [] && head + tail == us + ws
    ensures head == [] ==> tail == us + ws
    ensures head != [] ==> head + us[1..] == us && tail == us[1..] + ws
  {
    if head != [] {
      assert head[0] == (head + tail)[0] == us[0];
      assert (head + tail)[1..] == tail && (us + ws)[1..] == us[1..] + ws;
    } else {
      assert head + tail == tail;
    }
  }

  lemma {:induction false} BadCut(key: string, vs: seq<Json>) returns (us: seq<Json>, ws: seq<Json>)
    requires !GroupsWell(key, vs)
    ensures us != [] && ws != [] && SameElements(us + ws, vs) && !Composes(key, us, ws)
  {
    GroupingIndependentIff(key, vs);
    us, ws :| us != [] && ws != [] && SameElements(us + ws, vs) && !Composes(key, us, ws);
  }

  /** Contributions that do not compose, in groups of profiles that contribute them. */
  lemma {:induction false} BadGroups(ps: seq<Profile>, path: string, us: seq<Json>, ws: seq<Json>)
    returns (xs: seq<Profile>, ys: seq<Profile>)
    requires OneEach(ps, path) && SameElements(us + ws, At(ps, path))
    ensures multiset(xs + ys) == multiset(ps) && At(xs, path) == us && At(ys, path) == ws
  {
    var qs := Realize(ps, path, us + ws);
    OneEachReordered(ps, qs, path);
    var n := CutProfiles(qs, path, us, ws);
    xs, ys := qs[..n], qs[n..];
    assert xs + ys == qs;
  }

  lemma {:induction false} OneEachReordered(ps: seq<Profile>, qs: seq<Profile>, path: string)
    requires OneEach(ps, path) && multiset(qs) == multiset(ps)
    ensures OneEach(qs, path)
  {
    SameProfiles(ps, qs);
  }

  lemma {:induction false} BadPathShows(ps: seq<Profile>, path: string)
    requires OneEachWhereShown(ps)
    requires Deepest(PathsOf(Entries(ps)), path)
    requires !GroupsWell(PathLeaf(path), At(ps, path))
    ensures !StagingIndependent(ps)
  {
    var us, ws := BadCut(PathLeaf(path), At(ps, path));
    var xs, ys := BadGroups(ps, path, us, ws);
    PathsReordered(ps, xs + ys);
    StagesDiffer(xs, ys, path);
  }

  lemma {:induction false} StagesDiffer(xs: seq<Profile>, ys: seq<Profile>, path: string)
    requires Deepest(PathsOf(Entries(xs + ys)), path) && At(xs, path) != [] && At(ys, path) != []
    requires !Composes(PathLeaf(path), At(xs, path), At(ys, path))
    ensures EffectivePayload([Staged(xs, 0), Staged(ys, 0)]) != EffectivePayload(xs + ys)
  {
    TwoStagesIff(xs, ys, 0, 0);
  }

  lemma {:induction false} GoodGroups(ps: seq<Profile>, xs: seq<Profile>, ys: seq<Profile>, a: nat, b: nat)
    requires NoLeadingDot(Entries(ps)) && multiset(xs + ys) == multiset(ps)
    requires GroupsWellWhereShown(ps)
    ensures EffectivePayload([Staged(xs, a), Staged(ys, b)]) == EffectivePayload(xs + ys)
  {
    LeadingDotsReordered(ps, xs + ys);
    PathsReordered(ps, xs + ys);
    forall path | Deepest(PathsOf(Entries(xs + ys)), path)
      ensures GroupsWell(PathLeaf(path), At(xs + ys, path))
    {
      AtReordered(xs + ys, ps, path);
      GroupsWellReordered(PathLeaf(path), At(ps, path), At(xs + ys, path));
    }
    TwoStagesSuffice(xs, ys, a, b);
  }

  /** If no profile contributes twice to a shown path: merging in two stages equals merging at once, for every order and
      every cut, exactly when no contributed path begins with a dot and the contributions to every path the payload shows
      group well. The condition looks at the contributions alone. */
  lemma {:induction false} StagingIndependentIff(ps: seq<Profile>)
    requires OneEachWhereShown(ps)
    ensures StagingIndependent(ps) <==> NoLeadingDot(Entries(ps)) && GroupsWellWhereShown(ps)
  {
    if !NoLeadingDot(Entries(ps)) {
      LeadingDotShows(ps);
    } else if GroupsWellWhereShown(ps) {
      forall xs: seq<Profile>, ys: seq<Profile>, a, b | multiset(xs + ys) == multiset(ps)
        ensures EffectivePayload([Staged(xs, a), Staged(ys, b)]) == EffectivePayload(xs + ys)
      {
        GoodGroups(ps, xs, ys, a, b);
      }
    } else {
      var path :| Deepest(PathsOf(Entries(ps)), path) && !GroupsWell(PathLeaf(path), At(ps, path));
      BadPathShows(ps, path);
    }
  }

  lemma {:induction false} LeadingDotShows(ps: seq<Profile>)
    requires !NoLeadingDot(Entries(ps))
    ensures !StagingIndependent(ps)
  {
    assert ps + [] == ps;
    TwoStagesIff(ps, [], 0, 0);
    assert multiset(ps + []) == multiset(ps);
    assert EffectivePayload([Staged(ps, 0), Staged([], 0)]) != EffectivePayload(ps + []);
  }
}
