/** When the profiles reported as conflicting, and so the assignments marked, depend on the order of the profiles. */
module ConflictOrder {
  import opened Text
  import opened Json
  import opened Restrictive
  import opened Merging
  import opened Paths
  import opened Effective
  import opened PolicyLaws
  import opened Conflicts
  import opened ConflictFlags
  import PolicyMerge

  // ----- the flag of a path is decided by whoever contributes to it first -----

  /** Whether contributions conflict if v comes first. */
  predicate FlagIfFirst(v: Json, vs: seq<Json>)
    requires vs != []
  {
    if AllKind(vs, KindNumber) then !Central(v, vs)
    else if AllKind(vs, KindArray) then IsStringArray(v) && !AllEqual(vs)
    else !AllEqual(vs)
  }

  lemma {:induction false} FirstDecides(vs: seq<Json>)
    requires vs != []
    ensures Disagree(vs) == FlagIfFirst(vs[0], vs)
  {
    if AllKind(vs, KindNumber) { NumberFlag(vs); }
  }

  lemma {:induction false} FlagIfFirstReordered(v: Json, vs: seq<Json>, ws: seq<Json>)
    requires vs != [] && ws != [] && SameElements(vs, ws)
    ensures FlagIfFirst(v, vs) == FlagIfFirst(v, ws)
  {
    SameMembers(vs, ws);
    assert vs[0] in ws && ws[0] in vs;
    assert AllEqual(vs) <==> AllEqual(ws);
  }

  /** A profile that makes a path conflict if it is the first of all profiles to contribute to it. */
  predicate Noisy(ps: seq<Profile>, p: Profile, path: string)
    requires At(ps, path) != []
  {
    ContributesTo(p, path) && FlagIfFirst(At([p], path)[0], At(ps, path))
  }

  lemma {:induction false} MemberContributes(ps: seq<Profile>, p: Profile, path: string)
    requires p in ps && ContributesTo(p, path)
    ensures At(ps, path) != []
  {
    assert ps == [ps[0]] + ps[1..];
    AtAppend([ps[0]], ps[1..], path);
    if p != ps[0] { MemberContributes(ps[1..], p, path); }
  }

  lemma {:induction false} SomeMemberContributes(ps: seq<Profile>, path: string) returns (p: Profile)
    requires At(ps, path) != []
    ensures p in ps && ContributesTo(p, path)
  {
    assert ps == [ps[0]] + ps[1..];
    AtAppend([ps[0]], ps[1..], path);
    if ContributesTo(ps[0], path) { p := ps[0]; } else { p := SomeMemberContributes(ps[1..], path); }
  }

  /** The flag of a path under another order of the profiles. */
  lemma {:induction false} FlaggedReordered(ps: seq<Profile>, qs: seq<Profile>, path: string)
    requires multiset(ps) == multiset(qs)
    ensures At(ps, path) != [] <==> At(qs, path) != []
    ensures PolicyMerge.Flagged(Entries(qs), path) <==> At(qs, path) != [] && FlagIfFirst(At(qs, path)[0], At(ps, path))
  {
    AtReordered(ps, qs, path);
    SameMembers(At(ps, path), At(qs, path));
    AtNonEmpty(qs, path);
    if At(qs, path) != [] {
      FirstDecides(At(qs, path));
      FlagIfFirstReordered(At(qs, path)[0], At(ps, path), At(qs, path));
    }
  }

  // ----- the profiles reported -----

  /** conflictProfiles of a merge */
  function ConflictProfiles(ps: seq<Profile>): set<nat> {
    set e | e in Entries(ps) && PolicyMerge.Flagged(Entries(ps), e.path) :: e.source
  }

  /** The paths that profiles with an id contribute to. */
  function PathsOfId(ps: seq<Profile>, id: nat): set<string> {
    set e | e in Entries(ps) && e.source == id :: e.path
  }

  ghost predicate ProfilesOrderIndependent(ps: seq<Profile>) {
    forall qs: seq<Profile> | multiset(qs) == multiset(ps) :: ConflictProfiles(qs) == ConflictProfiles(ps)
  }

  /** Paths of which one conflicts in every order: whichever profile contributes to them first is noisy for one of those
      it contributes to. */
  predicate Stuck(ps: seq<Profile>, paths: set<string>) {
    && paths != {}
    && forall p, path | p in ps && path in paths && ContributesTo(p, path) ::
         exists q | q in paths :: At(ps, q) != [] && Noisy(ps, p, q)
  }

  /** No profile is noisy for any of the paths. */
  predicate Quiet(ps: seq<Profile>, paths: set<string>) {
    forall p, path | p in ps && path in paths && ContributesTo(p, path) ::
      At(ps, path) != [] && !Noisy(ps, p, path)
  }

  /** The condition, checkable on the contributions alone, for an id to be reported in every order or in none. */
  ghost predicate Decided(ps: seq<Profile>, id: nat) {
    Quiet(ps, PathsOfId(ps, id)) || exists paths | paths <= PathsOfId(ps, id) :: Stuck(ps, paths)
  }

  lemma {:induction false} PathsOfIdReordered(ps: seq<Profile>, qs: seq<Profile>, id: nat)
    requires multiset(ps) == multiset(qs)
    ensures PathsOfId(ps, id) == PathsOfId(qs, id)
  {
    EntriesReordered(ps, qs);
  }

  lemma {:induction false} ReportedIff(qs: seq<Profile>, id: nat)
    ensures id in ConflictProfiles(qs) <==> exists path | path in PathsOfId(qs, id) :: PolicyMerge.Flagged(Entries(qs), path)
  {
    if id in ConflictProfiles(qs) {
      var e :| e in Entries(qs) && PolicyMerge.Flagged(Entries(qs), e.path) && e.source == id;
      assert e.path in PathsOfId(qs, id);
    }
  }

  /** In whatever order, one of stuck paths conflicts. */
  lemma {:induction false} StuckFlags(ps: seq<Profile>, qs: seq<Profile>, paths: set<string>, path: string)
    returns (hit: string)
    requires Stuck(ps, paths) && path in paths && At(qs, path) != [] && forall p | p in qs :: p in ps
    ensures hit in paths && At(ps, hit) != [] && At(qs, hit) != [] && FlagIfFirst(At(qs, hit)[0], At(ps, hit))
    decreases |qs|
  {
    assert qs == [qs[0]] + qs[1..];
    assert qs[0] in qs;
    if some :| some in paths && ContributesTo(qs[0], some) {
      hit :| hit in paths && At(ps, hit) != [] && Noisy(ps, qs[0], hit);
      AtAppend([qs[0]], qs[1..], hit);
    } else {
      AtAppend([qs[0]], qs[1..], path);
      hit := StuckFlags(ps, qs[1..], paths, path);
      AtAppend([qs[0]], qs[1..], hit);
      assert At([qs[0]], hit) == [];
      assert At(qs, hit) == At(qs[1..], hit);
    }
  }

  predicate NothingStuck(ps: seq<Profile>, paths: set<string>) {
    forall some | some <= paths :: !Stuck(ps, some)
  }

  /** x contributes to one of the paths and is noisy for none. */
  predicate QuietFor(ps: seq<Profile>, x: Profile, paths: set<string>) {
    && (exists hit | hit in paths :: ContributesTo(x, hit))
    && forall q | q in paths && At(ps, q) != [] :: !Noisy(ps, x, q)
  }

  /** The contributors to the paths are all among the rest. */
  predicate ContributorsIn(ps: seq<Profile>, rest: seq<Profile>, paths: set<string>) {
    forall p, path | p in ps && path in paths && ContributesTo(p, path) :: p in rest
  }

  lemma {:induction false} SomeQuiet(ps: seq<Profile>, rest: seq<Profile>, paths: set<string>) returns (i: nat)
    requires paths != {} && NothingStuck(ps, paths) && ContributorsIn(ps, rest, paths)
    ensures i < |rest| && QuietFor(ps, rest[i], paths)
  {
    assert !Stuck(ps, paths);
    var p, hit :| p in ps && hit in paths && ContributesTo(p, hit)
      && forall q | q in paths && At(ps, q) != [] :: !Noisy(ps, p, q);
    i :| i < |rest| && rest[i] == p;
  }

  /** No path conflicts in this order. */
  predicate AllQuiet(ps: seq<Profile>, order: seq<Profile>, paths: set<string>)
    requires forall path | path in paths :: At(ps, path) != []
  {
    forall path | path in paths :: At(order, path) != [] && !FlagIfFirst(At(order, path)[0], At(ps, path))
  }

  lemma {:induction false} QuietInFront(ps: seq<Profile>, x: Profile, others: seq<Profile>, paths: set<string>,
                                        left: set<string>)
    requires forall path | path in paths :: At(ps, path) != []
    requires left == (set q | q in paths && !ContributesTo(x, q))
    requires QuietFor(ps, x, paths) && AllQuiet(ps, others, left)
    ensures AllQuiet(ps, [x] + others, paths)
  {
    forall path | path in paths
      ensures At([x] + others, path) != [] && !FlagIfFirst(At([x] + others, path)[0], At(ps, path))
    {
      AtAppend([x], others, path);
      if path in left { assert At([x] + others, path) == At(others, path); } else { assert !Noisy(ps, x, path); }
    }
  }

  lemma {:induction false} FewerPaths(ps: seq<Profile>, x: Profile, paths: set<string>, left: set<string>)
    requires QuietFor(ps, x, paths) && NothingStuck(ps, paths)
    requires left == (set q | q in paths && !ContributesTo(x, q))
    ensures left < paths && |left| < |paths| && NothingStuck(ps, left)
  {
    var hit :| hit in paths && ContributesTo(x, hit);
    assert hit !in left;
    Smaller(left, paths);
  }

  lemma {:induction false} Smaller(a: set<string>, b: set<string>)
    requires a < b
    ensures |a| < |b|
  {
    assert |b| == |a| + |b - a| by { assert b == a + (b - a); }
  }

  /** If none of the paths are stuck, some order keeps all of them from conflicting. */
  lemma {:induction false} QuietOrder(ps: seq<Profile>, rest: seq<Profile>, paths: set<string>)
    returns (order: seq<Profile>)
    requires NothingStuck(ps, paths) && forall path | path in paths :: At(ps, path) != []
    requires ContributorsIn(ps, rest, paths)
    ensures multiset(order) == multiset(rest) && AllQuiet(ps, order, paths)
    decreases |paths|
  {
    if paths == {} {
      order := rest;
    } else {
      var i := SomeQuiet(ps, rest, paths);
      var left := set q | q in paths && !ContributesTo(rest[i], q);
      FewerPaths(ps, rest[i], paths, left);
      StillThere(ps, rest, i, left);
      var others := QuietOrder(ps, Without(rest, i), left);
      QuietInFront(ps, rest[i], others, paths, left);
      order := [rest[i]] + others;
      WithoutElements(rest, i);
    }
  }

  lemma {:induction false} StillThere(ps: seq<Profile>, rest: seq<Profile>, i: nat, left: set<string>)
    requires i < |rest| && forall q | q in left :: !ContributesTo(rest[i], q)
    requires ContributorsIn(ps, rest, left)
    ensures ContributorsIn(ps, Without(rest, i), left)
  {
    forall p, path | p in ps && path in left && ContributesTo(p, path) ensures p in Without(rest, i) {
      var j: nat :| j < |rest| && rest[j] == p;
      assert j != i;
      if j < i { assert rest[..i][j] == p; } else { assert rest[i + 1..][j - i - 1] == p; }
    }
  }

  lemma {:induction false} PathsHaveContributors(ps: seq<Profile>, id: nat, path: string)
    requires path in PathsOfId(ps, id)
    ensures At(ps, path) != []
  {
    var e :| e in Entries(ps) && e.source == id && e.path == path;
    AtNonEmpty(ps, path);
  }

  /** Decided ids are reported alike in every order. */
  lemma {:induction false} DecidedIsEnough(ps: seq<Profile>, qs: seq<Profile>, id: nat)
    requires multiset(qs) == multiset(ps) && Decided(ps, id)
    ensures id in ConflictProfiles(qs) <==> !Quiet(ps, PathsOfId(ps, id))
  {
    ReportedIff(qs, id);
    PathsOfIdReordered(ps, qs, id);
    if Quiet(ps, PathsOfId(ps, id)) {
      forall path | path in PathsOfId(qs, id) ensures !PolicyMerge.Flagged(Entries(qs), path) {
        QuietPathUnflagged(ps, qs, id, path);
      }
    } else {
      var paths :| paths <= PathsOfId(ps, id) && Stuck(ps, paths);
      StuckIsReported(ps, qs, id, paths);
    }
  }

  lemma {:induction false} QuietPathUnflagged(ps: seq<Profile>, qs: seq<Profile>, id: nat, path: string)
    requires multiset(qs) == multiset(ps) && Quiet(ps, PathsOfId(ps, id)) && path in PathsOfId(ps, id)
    ensures !PolicyMerge.Flagged(Entries(qs), path)
  {
    FlaggedReordered(ps, qs, path);
    SameProfiles(ps, qs);
    if At(qs, path) != [] {
      var p := FirstContributor(qs, path);
      assert !Noisy(ps, p, path);
    }
  }

  lemma {:induction false} StuckIsReported(ps: seq<Profile>, qs: seq<Profile>, id: nat, paths: set<string>)
    requires multiset(qs) == multiset(ps) && paths <= PathsOfId(ps, id) && Stuck(ps, paths)
    ensures id in ConflictProfiles(qs) && !Quiet(ps, PathsOfId(ps, id))
  {
    var path :| path in paths;
    PathsHaveContributors(ps, id, path);
    FlaggedReordered(ps, qs, path);
    SameProfiles(ps, qs);
    var hit := StuckFlags(ps, qs, paths, path);
    FlaggedReordered(ps, qs, hit);
    PathsOfIdReordered(ps, qs, id);
    ReportedIff(qs, id);
    var p := FirstContributor(qs, hit);
    assert hit in PathsOfId(ps, id) && Noisy(ps, p, hit);
  }

  /** An id that is not decided is reported in one order and not in another. */
  lemma {:induction false} Undecided(ps: seq<Profile>, id: nat) returns (loud: seq<Profile>, quiet: seq<Profile>)
    requires !Decided(ps, id)
    ensures multiset(loud) == multiset(ps) && multiset(quiet) == multiset(ps)
    ensures id in ConflictProfiles(loud) && id !in ConflictProfiles(quiet)
  {
    var paths := PathsOfId(ps, id);
    forall path | path in paths ensures At(ps, path) != [] { PathsHaveContributors(ps, id, path); }
    loud := LoudOrder(ps, id);
    quiet := QuietOrder(ps, ps, paths);
    ReportedIff(quiet, id);
    PathsOfIdReordered(ps, quiet, id);
    forall path | path in PathsOfId(quiet, id) ensures !PolicyMerge.Flagged(Entries(quiet), path) {
      FlaggedReordered(ps, quiet, path);
    }
  }

  lemma {:induction false} LoudOrder(ps: seq<Profile>, id: nat) returns (loud: seq<Profile>)
    requires !Quiet(ps, PathsOfId(ps, id))
    ensures multiset(loud) == multiset(ps) && id in ConflictProfiles(loud)
  {
    var p, path :| p in ps && path in PathsOfId(ps, id) && ContributesTo(p, path)
      && !(At(ps, path) != [] && !Noisy(ps, p, path));
    PathsHaveContributors(ps, id, path);
    var i: nat :| i < |ps| && ps[i] == p;
    loud := [p] + Without(ps, i);
    WithoutElements(ps, i);
    AtAppend([p], Without(ps, i), path);
    FlaggedReordered(ps, loud, path);
    PathsOfIdReordered(ps, loud, id);
    ReportedIff(loud, id);
  }

  /** The profiles reported as conflicting, and so the assignments marked by the reconciliation, are the same for every
      order of the profiles exactly if every id is decided: no profile is noisy for any path the id contributes to, or some
      of these paths are stuck, so that one of them conflicts whoever comes first. For any keys and any values. */
  lemma {:induction false} ProfilesOrderIndependentIff(ps: seq<Profile>)
    ensures ProfilesOrderIndependent(ps) <==> forall id :: Decided(ps, id)
  {
    if forall id :: Decided(ps, id) {
      forall qs: seq<Profile> | multiset(qs) == multiset(ps) ensures ConflictProfiles(qs) == ConflictProfiles(ps) {
        forall id ensures id in ConflictProfiles(qs) <==> id in ConflictProfiles(ps) {
          DecidedIsEnough(ps, qs, id);
          DecidedIsEnough(ps, ps, id);
        }
      }
    } else {
      var id :| !Decided(ps, id);
      var loud, quiet := Undecided(ps, id);
      assert ConflictProfiles(loud) != ConflictProfiles(quiet);
    }
  }

  /** A merge result that is right reports just these profiles. */
  lemma {:induction false} ReportedAreConflictProfiles(ps: seq<Profile>, r: PolicyMerge.MergeResult)
    requires PolicyMerge.ReportedBy(Entries(ps), SortedKeys(PathsOf(Entries(ps))), r)
    ensures r.conflictProfiles == ConflictProfiles(ps)
  {
    var es, paths := Entries(ps), SortedKeys(PathsOf(Entries(ps)));
    forall id ensures id in r.conflictProfiles <==> id in ConflictProfiles(ps) {
      if id in ConflictProfiles(ps) {
        var e :| e in es && PolicyMerge.Flagged(es, e.path) && e.source == id;
        assert e.path in paths && PolicyMerge.Contributes(es, id, e.path);
      }
      if id in r.conflictProfiles {
        var path :| path in paths && PolicyMerge.Flagged(es, path) && PolicyMerge.Contributes(es, id, path);
        var e :| e in es && e.path == path && e.source == id;
        assert PolicyMerge.Flagged(es, e.path);
      }
    }
  }
}
