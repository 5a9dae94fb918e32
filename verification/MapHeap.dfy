/** The nested maps that unflattenLeaves writes in place: map objects that refer to each other. */
module MapHeap {
  import opened Text
  import opened Json
  import opened Paths
  import opened Rebuild

  /** What a key of a Go map holds: a plain value, or a reference to another map object. */
  datatype Cell = Plain(value: Json) | Ref(node: nat)

  type Nodes = seq<map<string, Cell>>

  /** Every map object sits at one place of the tree; a reference leads from a place to the place below it. */
  predicate Tree(nodes: Nodes, home: seq<seq<string>>) {
    && |nodes| == |home| && |nodes| > 0 && home[0] == []
    && (forall i, k {:trigger nodes[i][k]} | 0 <= i < |nodes| && k in nodes[i] && nodes[i][k].Ref? ::
          var j := nodes[i][k].node; i < j < |nodes| && home[j] == home[i] + [k])
    && (forall i, k {:trigger nodes[i][k]} | 0 <= i < |nodes| && k in nodes[i] && nodes[i][k].Plain? :: !nodes[i][k].value.Object?)
  }

  /** The JSON object that a map object stands for. */
  ghost function View(nodes: Nodes, home: seq<seq<string>>, i: nat): map<string, Json>
    requires Tree(nodes, home) && i < |nodes|
    decreases |nodes| - i
  {
    map k | k in nodes[i] :: ViewCell(nodes, home, i, k)
  }

  ghost function ViewCell(nodes: Nodes, home: seq<seq<string>>, i: nat, k: string): Json
    requires Tree(nodes, home) && i < |nodes| && k in nodes[i]
    decreases |nodes| - i, 0
  {
    match nodes[i][k]
    case Plain(v) => v
    case Ref(j) => Object(View(nodes, home, j))
  }

  /** `after` is `before` with one key of one map object set, and possibly a new map object at the end. */
  predicate OneWrite(before: Nodes, home: seq<seq<string>>, after: Nodes, home': seq<seq<string>>, cur: nat, k: string) {
    && Tree(before, home) && Tree(after, home') && cur < |before| <= |after| && home <= home'
    && k in after[cur] && after[cur] == before[cur][k := after[cur][k]]
    && forall i | 0 <= i < |before| && i != cur :: after[i] == before[i]
  }

  /** A write does not show in map objects that the written one is not below. */
  lemma {:induction false} Untouched(before: Nodes, home: seq<seq<string>>, after: Nodes, home': seq<seq<string>>,
                                     cur: nat, k: string, i: nat)
    requires OneWrite(before, home, after, home', cur, k) && i < |before| && !(home[i] <= home[cur])
    ensures View(after, home', i) == View(before, home, i)
    decreases |before| - i
  {
    assert i != cur;
    forall l | l in before[i] && before[i][l].Ref?
      ensures ViewCell(after, home', i, l) == ViewCell(before, home, i, l)
    {
      var j := before[i][l].node;
      assert home[j] == home[i] + [l];
      Untouched(before, home, after, home', cur, k, j);
    }
  }

  /** The map object reached from i along a list of references. */
  predicate Reaches(nodes: Nodes, home: seq<seq<string>>, i: nat, segs: seq<string>, cur: nat)
    requires Tree(nodes, home) && i < |nodes|
    decreases segs
  {
    if segs == [] then i == cur
    else segs[0] in nodes[i] && nodes[i][segs[0]].Ref? && Reaches(nodes, home, nodes[i][segs[0]].node, segs[1..], cur)
  }

  lemma {:induction false} ReachesHome(nodes: Nodes, home: seq<seq<string>>, i: nat, segs: seq<string>, cur: nat)
    requires Tree(nodes, home) && i < |nodes| && Reaches(nodes, home, i, segs, cur)
    ensures cur < |nodes| && home[cur] == home[i] + segs
    decreases segs
  {
    if segs != [] {
      var j := nodes[i][segs[0]].node;
      ReachesHome(nodes, home, j, segs[1..], cur);
      assert home[i] + segs == home[i] + [segs[0]] + segs[1..];
    }
  }

  lemma {:induction false} ReachesFurther(nodes: Nodes, home: seq<seq<string>>, i: nat, segs: seq<string>, cur: nat,
                                          k: string)
    requires Tree(nodes, home) && i < |nodes| && cur < |nodes| && Reaches(nodes, home, i, segs, cur)
    requires k in nodes[cur] && nodes[cur][k].Ref?
    ensures Reaches(nodes, home, i, segs + [k], nodes[cur][k].node)
    decreases segs
  {
    if segs != [] {
      assert (segs + [k])[1..] == segs[1..] + [k];
      ReachesFurther(nodes, home, nodes[i][segs[0]].node, segs[1..], cur, k);
    }
  }

  /** Writing one key of the map object reached along some keys is a write along those keys. */
  lemma {:induction false} WriteShows(before: Nodes, home: seq<seq<string>>, after: Nodes, home': seq<seq<string>>,
                                      i: nat, segs: seq<string>, cur: nat, k: string)
    requires OneWrite(before, home, after, home', cur, k) && i < |before|
    requires Reaches(before, home, i, segs, cur)
    ensures View(after, home', i) == SetAt(View(before, home, i), segs + [k], ViewCell(after, home', cur, k))
    decreases segs
  {
    ReachesHome(before, home, i, segs, cur);
    if segs == [] {
      SameChildren(before, home, after, home', i, segs, cur, k, k);
      assert segs + [k] == [k];
    } else {
      var s := segs[0];
      var j := before[i][s].node;
      WriteShows(before, home, after, home', j, segs[1..], cur, k);
      ChildWriteShows(before, home, after, home', i, segs, cur, k, j, ViewCell(after, home', cur, k));
    }
  }

  lemma {:induction false} ChildWriteShows(before: Nodes, home: seq<seq<string>>, after: Nodes, home': seq<seq<string>>,
                                           i: nat, segs: seq<string>, cur: nat, k: string, j: nat, x: Json)
    requires OneWrite(before, home, after, home', cur, k) && i < |before| && segs != []
    requires home[cur] == home[i] + segs && segs[0] in before[i] && before[i][segs[0]] == Ref(j)
    requires View(after, home', j) == SetAt(View(before, home, j), segs[1..] + [k], x)
    ensures View(after, home', i) == SetAt(View(before, home, i), segs + [k], x)
  {
    var s := segs[0];
    SameChildren(before, home, after, home', i, segs, cur, k, s);
    assert (segs + [k])[1..] == segs[1..] + [k];
    assert ChildFields(View(before, home, i), s) == View(before, home, j);
    assert i != cur;
    assert ViewCell(after, home', i, s) == Object(View(after, home', j));
    OneKeySet(View(before, home, i), View(after, home', i), s, Object(View(after, home', j)));
  }

  lemma {:induction false} OneKeySet(m: map<string, Json>, w: map<string, Json>, s: string, x: Json)
    requires s in w && w[s] == x
    requires forall l | l in m && l != s :: l in w && w[l] == m[l]
    requires forall l | l in w && l != s :: l in m
    ensures w == m[s := x]
  {
  }

  lemma {:induction false} SameChildren(before: Nodes, home: seq<seq<string>>, after: Nodes, home': seq<seq<string>>,
                                        i: nat, segs: seq<string>, cur: nat, k: string, s: string)
    requires OneWrite(before, home, after, home', cur, k) && i < |before| && home[cur] == home[i] + segs
    requires s == if segs == [] then k else segs[0]
    requires segs == [] ==> i == cur
    ensures forall l | l in before[i] && l != s :: l in after[i] && ViewCell(after, home', i, l) == ViewCell(before, home, i, l)
    ensures forall l | l in after[i] && l != s :: l in before[i]
  {
    assert segs != [] ==> i != cur;
    forall l | l in before[i] && l != s
      ensures l in after[i] && ViewCell(after, home', i, l) == ViewCell(before, home, i, l)
    {
      assert after[i][l] == before[i][l];
      if before[i][l].Ref? {
        var j := before[i][l].node;
        assert home[j] == home[i] + [l] && home[j][|home[i]|] == l;
        if segs != [] { assert home[cur][|home[i]|] == s; }
        Untouched(before, home, after, home', cur, k, j);
      }
    }
  }

  /** Putting an empty object in the way of a longer write is absorbed by it. */
  lemma {:induction false} StopoverAbsorbed(m: map<string, Json>, a: seq<string>, segs: seq<string>, x: Json)
    requires a != [] && a < segs
    requires var r := ReadAt(Object(m), a); r.None? || !r.value.Object?
    ensures SetAt(SetAt(m, a, EmptyObject), segs, x) == SetAt(m, segs, x)
    decreases a
  {
    if |a| == 1 {
      assert a[1..] == [];
      assert ChildFields(SetAt(m, a, EmptyObject), a[0]) == map[] == ChildFields(m, a[0]);
    } else {
      ReadChild(m, a);
      StopoverAbsorbed(ChildFields(m, a[0]), a[1..], segs[1..], x);
      ChildAbsorbed(m, a, segs, x);
    }
  }

  lemma {:induction false} ChildAbsorbed(m: map<string, Json>, a: seq<string>, segs: seq<string>, x: Json)
    requires |a| > 1 && a < segs
    requires var child := ChildFields(m, a[0]);
      SetAt(SetAt(child, a[1..], EmptyObject), segs[1..], x) == SetAt(child, segs[1..], x)
    ensures SetAt(SetAt(m, a, EmptyObject), segs, x) == SetAt(m, segs, x)
  {
    assert segs[0] == a[0];
    assert ChildFields(SetAt(m, a, EmptyObject), a[0]) == SetAt(ChildFields(m, a[0]), a[1..], EmptyObject);
  }

  /** A write leaves alone what is reached along other keys, and along the same ones if it replaces no reference. */
  lemma {:induction false} ReachesKept(before: Nodes, home: seq<seq<string>>, after: Nodes, home': seq<seq<string>>,
                                       i: nat, segs: seq<string>, n: nat, cur: nat, k: string)
    requires OneWrite(before, home, after, home', cur, k) && i < |before| && Reaches(before, home, i, segs, n)
    requires (k in before[cur] && before[cur][k].Ref?) ==> !(home[cur] + [k] <= home[i] + segs)
    ensures n < |before| && Reaches(after, home', i, segs, n)
    decreases segs
  {
    if segs != [] {
      var j := before[i][segs[0]].node;
      assert home[i] + segs == home[i] + [segs[0]] + segs[1..];
      assert home[i] + [segs[0]] <= home[i] + segs;
      if !(i == cur && segs[0] == k) {
        assert after[i][segs[0]] == before[i][segs[0]];
        ReachesKept(before, home, after, home', j, segs[1..], n, cur, k);
      }
    }
  }

  /** A reached map object is what the root shows there. */
  lemma {:induction false} ReachedReads(nodes: Nodes, home: seq<seq<string>>, i: nat, segs: seq<string>, n: nat)
    requires Tree(nodes, home) && i < |nodes| && Reaches(nodes, home, i, segs, n) && n < |nodes|
    ensures ReadAt(Object(View(nodes, home, i)), segs) == Some(Object(View(nodes, home, n)))
    decreases segs
  {
    if segs != [] {
      ReadStep(Object(View(nodes, home, i)), segs);
      ReachedReads(nodes, home, nodes[i][segs[0]].node, segs[1..], n);
    }
  }

  class Rebuilder {
    var nodes: Nodes
    ghost var home: seq<seq<string>>
    /** The empty objects that were written, by path: these map objects are also in the caller's hands. */
    var objects: map<string, nat>

    ghost predicate Valid()
      reads this
    {
      Tree(nodes, home)
    }

    /** The object rebuilt so far. */
    ghost function Contents(): map<string, Json>
      reads this
      requires Valid()
    {
      View(nodes, home, 0)
    }

    constructor ()
      ensures Valid() && Contents() == map[] && objects == map[] && ObjectsInPlace()
    {
      nodes := [map[]];
      home := [[]];
      objects := map[];
    }

    /** Every map object that was written is still at its place. */
    ghost predicate ObjectsInPlace()
      reads this
      requires Valid()
    {
      forall p | p in objects :: objects[p] < |nodes| && Reaches(nodes, home, 0, Split(p), objects[p])
    }

    /** What the map object written at a path holds now. */
    ghost function ObjectAt(p: string): map<string, Json>
      reads this
      requires Valid() && p in objects && objects[p] < |nodes|
    {
      View(nodes, home, objects[p])
    }

    /** Whoever holds a map object that was written sees what the rebuilt object shows at its path. */
    lemma {:induction false} ObjectsShow(p: string)
      requires Valid() && ObjectsInPlace() && p in objects
      ensures ReadAt(Object(Contents()), Split(p)) == Some(Object(ObjectAt(p)))
    {
      ReachedReads(nodes, home, 0, Split(p), objects[p]);
    }

    /** cur[k] = {} : a fresh map object below an existing one. */
    method Allocate(cur: nat, k: string) returns (next: nat)
      requires Valid() && cur < |nodes|
      modifies this`nodes, this`home
      ensures Valid() && OneWrite(old(nodes), old(home), nodes, home, cur, k)
      ensures next == old(|nodes|) < |nodes| && nodes[cur][k] == Ref(next) && nodes[next] == map[]
      ensures ViewCell(nodes, home, cur, k) == EmptyObject
    {
      next := |nodes|;
      ghost var before := nodes;
      nodes := nodes[cur := nodes[cur][k := Ref(next)]] + [map[]];
      home := home + [home[cur] + [k]];
      forall i, l | 0 <= i < |nodes| && l in nodes[i] && nodes[i][l].Ref?
        ensures i < nodes[i][l].node < |nodes| && home[nodes[i][l].node] == home[i] + [l]
      {
        if !(i == cur && l == k) {
          assert nodes[i][l] == before[i][l];
        }
      }
      assert Tree(nodes, home);
      assert View(nodes, home, next) == map[];
    }

    /** The last step of a write: cur[k] = val, where an empty object is a map object of its own. */
    method Put(cur: nat, k: string, val: Json) returns (at: nat)
      requires Valid() && cur < |nodes| && IsLeaf(val)
      modifies this`nodes, this`home
      ensures Valid() && OneWrite(old(nodes), old(home), nodes, home, cur, k)
      ensures val.Object? ==> at < |nodes| && nodes[cur][k] == Ref(at)
      ensures ViewCell(nodes, home, cur, k) == val
    {
      if val.Object? {
        at := Allocate(cur, k);
      } else {
        at := 0;
        ghost var before := nodes;
        nodes := nodes[cur := nodes[cur][k := Plain(val)]];
        forall i, l | 0 <= i < |nodes| && l in nodes[i] && nodes[i][l].Ref?
          ensures i < nodes[i][l].node < |nodes| && home[nodes[i][l].node] == home[i] + [l]
        {
          assert nodes[i][l] == before[i][l];
        }
        assert Tree(nodes, home);
      }
    }

    /** Puts a map object in the way; the write that goes through it will make the difference unseen. */
    method Extend(cur: nat, sg: string, ghost way: seq<string>, ghost segs: seq<string>, ghost val: Json)
      returns (next: nat)
      requires Valid() && cur < |nodes| && Reaches(nodes, home, 0, way, cur) && way + [sg] < segs
      requires !(sg in nodes[cur] && nodes[cur][sg].Ref?) && ObjectsInPlace()
      modifies this`nodes, this`home
      ensures Valid() && next < |nodes| && Reaches(nodes, home, 0, way + [sg], next) && ObjectsInPlace()
      ensures SetAt(Contents(), segs, val) == SetAt(old(Contents()), segs, val)
    {
      ghost var before, home0 := nodes, home;
      NoObjectThere(before, home0, 0, way, cur, sg);
      next := Allocate(cur, sg);
      WriteShows(before, home0, nodes, home, 0, way, cur, sg);
      StopoverAbsorbed(View(before, home0, 0), way + [sg], segs, val);
      ReachesAfter(before, home0, nodes, home, 0, way, cur, sg);
      ReachesFurther(nodes, home, 0, way, cur, sg);
      forall p | p in objects ensures objects[p] < |nodes| && Reaches(nodes, home, 0, Split(p), objects[p]) {
        ReachesKept(before, home0, nodes, home, 0, Split(p), objects[p], cur, sg);
      }
    }

    /** Goes down one key, putting in a map object if none is there. */
    method Enter(cur: nat, sg: string, ghost way: seq<string>, ghost segs: seq<string>, ghost val: Json)
      returns (next: nat)
      requires Valid() && cur < |nodes| && Reaches(nodes, home, 0, way, cur) && way + [sg] < segs && ObjectsInPlace()
      modifies this`nodes, this`home
      ensures Valid() && next < |nodes| && Reaches(nodes, home, 0, way + [sg], next) && ObjectsInPlace()
      ensures SetAt(Contents(), segs, val) == SetAt(old(Contents()), segs, val)
    {
      if sg in nodes[cur] && nodes[cur][sg].Ref? {
        ReachesFurther(nodes, home, 0, way, cur, sg);
        next := nodes[cur][sg].node;
      } else {
        next := Extend(cur, sg, way, segs, val);
      }
    }

    /** Walks down from the root to the map object that gets the last key. */
    method Descend(segs: seq<string>, ghost val: Json) returns (cur: nat)
      requires Valid() && segs != [] && ObjectsInPlace()
      modifies this`nodes, this`home
      ensures Valid() && ObjectsInPlace() && cur < |nodes| && Reaches(nodes, home, 0, segs[..|segs| - 1], cur)
      ensures SetAt(Contents(), segs, val) == SetAt(old(Contents()), segs, val)
    {
      var i: nat := 0;
      cur := 0;
      while i < |segs| - 1
        invariant Valid() && 0 <= i <= |segs| - 1 && cur < |nodes| && ObjectsInPlace()
        invariant Reaches(nodes, home, 0, segs[..i], cur)
        invariant SetAt(Contents(), segs, val) == SetAt(old(Contents()), segs, val)
      {
        assert segs[..i + 1] == segs[..i] + [segs[i]];
        cur := Enter(cur, segs[i], segs[..i], segs, val);
        i := i + 1;
      }
    }

    /** setAtDottedPath. Map objects written before stay in place, unless the path leads to or above them. */
    method SetAtDottedPath(path: string, val: Json)
      requires Valid() && IsLeaf(val)
      requires ObjectsInPlace() && forall p | p in objects :: !(Split(path) <= Split(p))
      modifies this
      ensures Valid() && Contents() == WritePath(old(Contents()), path, val)
      ensures ObjectsInPlace()
      ensures objects.Keys == old(objects).Keys + if path != "" && val.Object? then {path} else {}
    {
      if path == "" { return; }
      var segs := Split(path);
      var cur := Descend(segs, val);
      var at := PutLast(segs, val, cur);
      if val.Object? { objects := objects[path := at]; }
    }

    method PutLast(segs: seq<string>, val: Json, cur: nat) returns (at: nat)
      requires Valid() && IsLeaf(val) && ObjectsInPlace() && forall p | p in objects :: !(segs <= Split(p))
      requires segs != [] && cur < |nodes| && Reaches(nodes, home, 0, segs[..|segs| - 1], cur)
      modifies this`nodes, this`home
      ensures Valid() && ObjectsInPlace() && Contents() == SetAt(old(Contents()), segs, val)
      ensures val.Object? ==> at < |nodes| && Reaches(nodes, home, 0, segs, at)
    {
      var n := |segs| - 1;
      ghost var before, home0 := nodes, home;
      at := Put(cur, segs[n], val);
      WriteShows(before, home0, nodes, home, 0, segs[..n], cur, segs[n]);
      assert segs[..n] + [segs[n]] == segs;
      KeepObjects(before, home0, segs, cur);
      if val.Object? {
        ReachesAfter(before, home0, nodes, home, 0, segs[..n], cur, segs[n]);
        ReachesFurther(nodes, home, 0, segs[..n], cur, segs[n]);
      }
    }

    lemma {:induction false} KeepObjects(before: Nodes, home0: seq<seq<string>>, segs: seq<string>, cur: nat)
      requires segs != [] && Valid() && OneWrite(before, home0, nodes, home, cur, segs[|segs| - 1])
      requires Reaches(before, home0, 0, segs[..|segs| - 1], cur)
      requires forall p | p in objects :: !(segs <= Split(p))
      requires forall p | p in objects :: objects[p] < |before| && Reaches(before, home0, 0, Split(p), objects[p])
      ensures ObjectsInPlace()
    {
      var k := segs[|segs| - 1];
      ReachesHome(before, home0, 0, segs[..|segs| - 1], cur);
      assert home0[cur] + [k] == segs;
      forall p | p in objects ensures objects[p] < |nodes| && Reaches(nodes, home, 0, Split(p), objects[p]) {
        ReachesKept(before, home0, nodes, home, 0, Split(p), objects[p], cur, k);
      }
    }
  }

  /** A place below a reached map object that holds no reference reads as no object. */
  lemma {:induction false} NoObjectThere(nodes: Nodes, home: seq<seq<string>>, i: nat, segs: seq<string>, cur: nat,
                                         k: string)
    requires Tree(nodes, home) && i < |nodes| && cur < |nodes| && Reaches(nodes, home, i, segs, cur)
    requires !(k in nodes[cur] && nodes[cur][k].Ref?)
    ensures var r := ReadAt(Object(View(nodes, home, i)), segs + [k]); r.None? || !r.value.Object?
    decreases segs
  {
    var at := segs + [k];
    ReadStep(Object(View(nodes, home, i)), at);
    if segs == [] {
      assert at[1..] == [];
    } else {
      assert at[1..] == segs[1..] + [k];
      NoObjectThere(nodes, home, nodes[i][segs[0]].node, segs[1..], cur, k);
    }
  }

  /** What led to the written map object still does. */
  lemma {:induction false} ReachesAfter(before: Nodes, home: seq<seq<string>>, after: Nodes, home': seq<seq<string>>,
                                        i: nat, segs: seq<string>, cur: nat, k: string)
    requires OneWrite(before, home, after, home', cur, k) && i < |before| && Reaches(before, home, i, segs, cur)
    ensures Reaches(after, home', i, segs, cur)
    decreases segs
  {
    if segs != [] {
      ReachesHome(before, home, i, segs, cur);
      assert i != cur;
      ReachesAfter(before, home, after, home', before[i][segs[0]].node, segs[1..], cur, k);
    }
  }

  /** Of the paths up to the i-th, those written with an empty object. */
  function EmptyObjects(leaves: map<string, Json>, paths: seq<string>): set<string> {
    set p | p in paths && p in leaves && p != "" && leaves[p].Object?
  }

  lemma {:induction false} EmptyObjectsStep(leaves: map<string, Json>, paths: seq<string>, i: nat)
    requires i < |paths| && paths[i] in leaves
    ensures EmptyObjects(leaves, paths[..i + 1])
         == EmptyObjects(leaves, paths[..i]) + if paths[i] != "" && leaves[paths[i]].Object? then {paths[i]} else {}
  {
    assert paths[..i + 1] == paths[..i] + [paths[i]];
  }

  lemma {:induction false} NextIsNotAbove(leaves: map<string, Json>, paths: seq<string>, i: nat)
    requires PrefixesFirst(paths) && i < |paths|
    ensures forall p | p in EmptyObjects(leaves, paths[..i]) :: !(Split(paths[i]) <= Split(p))
  {
    forall p | p in EmptyObjects(leaves, paths[..i]) ensures !(Split(paths[i]) <= Split(p)) {
      var j: nat :| j < i && paths[j] == p;
      assert paths[j] != paths[i] && !Extends(paths[j], paths[i]);
      ExtendsIsProperPrefix(p, paths[i]);
      if Split(paths[i]) == Split(p) { SplitInjective(paths[i], p); }
    }
  }

  lemma {:induction false} NextWrite(leaves: map<string, Json>, paths: seq<string>, i: nat)
    requires i < |paths| && forall p | p in paths :: p in leaves
    ensures WriteAll(leaves, paths[..i + 1]) == WritePath(WriteAll(leaves, paths[..i]), paths[i], leaves[paths[i]])
  {
    assert paths[..i + 1][..i] == paths[..i];
  }

  /** unflattenLeaves: the leaves written in sorted order of their paths. The empty objects among them are the map objects
      that the rebuilt object holds at their paths. */
  method UnflattenLeaves(leaves: map<string, Json>) returns (root: Rebuilder)
    requires forall p | p in leaves :: IsLeaf(leaves[p])
    ensures fresh(root) && root.Valid() && root.Contents() == Unflatten(leaves)
    ensures root.ObjectsInPlace() && root.objects.Keys == set p | p in leaves && p != "" && leaves[p].Object?
  {
    root := new Rebuilder();
    var paths := SortedKeys(leaves.Keys);
    SortedPutsPrefixesFirst(paths);
    for i := 0 to |paths|
      invariant fresh(root) && root.Valid() && root.Contents() == WriteAll(leaves, paths[..i])
      invariant root.ObjectsInPlace() && root.objects.Keys == EmptyObjects(leaves, paths[..i])
    {
      assert paths[i] in paths;
      NextWrite(leaves, paths, i);
      EmptyObjectsStep(leaves, paths, i);
      NextIsNotAbove(leaves, paths, i);
      root.SetAtDottedPath(paths[i], leaves[paths[i]]);
    }
    assert paths[..|paths|] == paths;
    AllEmptyObjects(leaves, paths);
  }

  lemma {:induction false} AllEmptyObjects(leaves: map<string, Json>, paths: seq<string>)
    requires forall p :: p in paths <==> p in leaves
    ensures EmptyObjects(leaves, paths) == set p | p in leaves && p != "" && leaves[p].Object?
  {
  }
}
