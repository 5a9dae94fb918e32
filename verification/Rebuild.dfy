/** Rebuilding a nested object from a flat table of dotted paths. */
module Rebuild {
  import opened Text
  import opened Json
  import opened Paths

  function ChildFields(m: map<string, Json>, k: string): map<string, Json> {
    if k in m && m[k].Object? then m[k].fields else map[]
  }

  /** One write along a list of keys; what stands in the way and is not an object is replaced by one. */
  function SetAt(m: map<string, Json>, segs: seq<string>, x: Json): map<string, Json>
    requires segs != []
    decreases segs
  {
    if |segs| == 1 then m[segs[0] := x]
    else m[segs[0] := Object(SetAt(ChildFields(m, segs[0]), segs[1..], x))]
  }

  /** setAtDottedPath */
  function WritePath(m: map<string, Json>, path: string, x: Json): map<string, Json> {
    if path == "" then m else SetAt(m, Split(path), x)
  }

  function WriteAll(leaves: map<string, Json>, paths: seq<string>): map<string, Json>
    requires forall p | p in paths :: p in leaves
  {
    if paths == [] then map[]
    else
      var last := paths[|paths| - 1];
      assert last in paths;
      WritePath(WriteAll(leaves, paths[..|paths| - 1]), last, leaves[last])
  }

  /** unflattenLeaves: all paths written in sorted order. */
  function Unflatten(leaves: map<string, Json>): map<string, Json> {
    WriteAll(leaves, SortedKeys(leaves.Keys))
  }

  // ----- one write -----

  lemma {:induction false} ReadStep(v: Json, at: seq<string>)
    requires at != []
    ensures ReadAt(v, at) == if v.Object? && at[0] in v.fields then ReadAt(v.fields[at[0]], at[1..]) else None
  {
  }

  lemma {:induction false} ReadChild(m: map<string, Json>, at: seq<string>)
    requires |at| > 1
    ensures ReadAt(Object(m), at) == ReadAt(Object(ChildFields(m, at[0])), at[1..])
  {
    ReadStep(Object(m), at);
    if at[0] in m {
      ReadStep(m[at[0]], at[1..]);
    }
    ReadStep(EmptyObject, at[1..]);
  }

  lemma {:induction false} SetAtReads(m: map<string, Json>, segs: seq<string>, x: Json, at: seq<string>)
    requires segs != [] && at != [] && IsLeaf(x)
    ensures LeafAt(Object(SetAt(m, segs, x)), at)
         == if at == segs then Some(x)
            else if at < segs || segs < at then None
            else LeafAt(Object(m), at)
    decreases segs
  {
    var k, w := segs[0], Object(SetAt(m, segs, x));
    ReadStep(w, at);
    if at[0] != k {
      ReadStep(Object(m), at);
    } else {
      SharedHead(segs, at);
      if |segs| == 1 {
        assert segs[1..] == [];
        if at[1..] != [] { ReadStep(x, at[1..]); }
      } else if at[1..] == [] {
        HeadIsObject(m, segs, x, at);
      } else {
        SetAtReads(ChildFields(m, k), segs[1..], x, at[1..]);
        ReadChild(m, at);
      }
    }
  }

  lemma {:induction false} HeadIsObject(m: map<string, Json>, segs: seq<string>, x: Json, at: seq<string>)
    requires |segs| > 1 && |at| == 1 && at[0] == segs[0]
    ensures LeafAt(Object(SetAt(m, segs, x)), at) == None && at < segs
  {
    ReadStep(Object(SetAt(m, segs, x)), at);
    assert at[1..] == [];
    assert segs[1..][0] in SetAt(ChildFields(m, segs[0]), segs[1..], x);
  }

  lemma {:induction false} SharedHead(a: seq<string>, b: seq<string>)
    requires a != [] && b != [] && a[0] == b[0]
    ensures a == b <==> a[1..] == b[1..]
    ensures a <= b <==> a[1..] <= b[1..]
    ensures b <= a <==> b[1..] <= a[1..]
  {
    assert a == [a[0]] + a[1..] && b == [b[0]] + b[1..];
  }

  // ----- all writes -----

  predicate Deepest(paths: set<string>, p: string) {
    p in paths && forall q | q in paths :: !Extends(q, p)
  }

  predicate DotFreeSegments(segs: seq<string>) { forall s | s in segs :: DotFree(s) }

  /** The entry a rebuilt object shows at a place: the one whose path leads there, unless a deeper path exists. */
  function DeepestLeaf(leaves: map<string, Json>, paths: set<string>, segs: seq<string>): Option<Json>
    requires segs != [] && paths <= leaves.Keys
  {
    var p := Join(segs);
    if DotFreeSegments(segs) && p != "" && Deepest(paths, p) then Some(leaves[p]) else None
  }

  lemma {:induction false} OneMoreWrite(leaves: map<string, Json>, paths: set<string>, p: string, m: map<string, Json>, segs: seq<string>)
    requires paths <= leaves.Keys && p in leaves && p !in paths && IsLeaf(leaves[p])
    requires forall q | q in paths :: !Extends(q, p)
    requires segs != [] && LeafAt(Object(m), segs) == DeepestLeaf(leaves, paths, segs)
    ensures LeafAt(Object(WritePath(m, p, leaves[p])), segs) == DeepestLeaf(leaves, paths + {p}, segs)
  {
    var r := Join(segs);
    if p == "" {
      assert Deepest(paths, r) || r == "" <==> Deepest(paths + {p}, r) || r == "";
    } else {
      var s := Split(p);
      SetAtReads(m, s, leaves[p], segs);
      if DotFreeSegments(segs) {
        SplitJoin(segs);
        ExtendsIsProperPrefix(p, r);
        ExtendsIsProperPrefix(r, p);
        JoinSplit(p);
      } else {
        SplitSegmentsDotFree(p);
        assert segs <= s ==> forall x | x in segs :: x in s;
      }
    }
  }

  function SetOf(s: seq<string>): set<string> { set x | x in s }

  /** No path is written after one of its extensions. */
  predicate PrefixesFirst(paths: seq<string>) {
    Distinct(paths) && forall i, j | 0 <= i < j < |paths| :: !Extends(paths[i], paths[j])
  }

  /** Sorting is what puts prefixes first. */
  lemma {:induction false} SortedPutsPrefixesFirst(paths: seq<string>)
    requires Sorted(paths) && Distinct(paths)
    ensures PrefixesFirst(paths)
  {
    forall i, j | 0 <= i < j < |paths| ensures !Extends(paths[i], paths[j]) {
      if Extends(paths[i], paths[j]) {
        PrefixIsLe(paths[j], paths[i]);
        LeAntisymmetric(paths[i], paths[j]);
      }
    }
  }

  lemma {:induction false} FirstAndLast(paths: seq<string>, before: seq<string>, p: string)
    requires PrefixesFirst(paths) && paths != [] && before == paths[..|paths| - 1] && p == paths[|paths| - 1]
    ensures SetOf(paths) == SetOf(before) + {p} && p !in before && PrefixesFirst(before)
    ensures forall q | q in SetOf(before) :: !Extends(q, p)
  {
    assert paths == before + [p];
  }

  lemma {:induction false} WritesRead(leaves: map<string, Json>, paths: seq<string>, segs: seq<string>)
    requires forall p | p in paths :: p in leaves && IsLeaf(leaves[p])
    requires PrefixesFirst(paths) && segs != []
    ensures SetOf(paths) <= leaves.Keys
    ensures LeafAt(Object(WriteAll(leaves, paths)), segs) == DeepestLeaf(leaves, SetOf(paths), segs)
    decreases |paths|
  {
    if paths != [] {
      var n := |paths| - 1;
      var before, p := paths[..n], paths[n];
      assert p in paths && forall q | q in before :: q in paths;
      WritesRead(leaves, before, segs);
      FirstAndLast(paths, before, p);
      OneMoreWrite(leaves, SetOf(before), p, WriteAll(leaves, before), segs);
    }
  }

  /** The deepest path wins: the leaves of the rebuilt object are the entries whose path has no extension in the
      table, each with its own value, and there are no others. */
  lemma {:induction false} UnflattenReads(leaves: map<string, Json>, segs: seq<string>)
    requires segs != [] && forall p | p in leaves :: IsLeaf(leaves[p])
    ensures LeafAt(Object(Unflatten(leaves)), segs) == DeepestLeaf(leaves, leaves.Keys, segs)
  {
    var keys := SortedKeys(leaves.Keys);
    SortedPutsPrefixesFirst(keys);
    WritesRead(leaves, keys, segs);
    assert SetOf(keys) == leaves.Keys;
  }

  lemma {:induction false} DeepestLeafOfPath(leaves: map<string, Json>, p: string)
    requires p in leaves && p != ""
    ensures DeepestLeaf(leaves, leaves.Keys, Split(p)) == if Deepest(leaves.Keys, p) then Some(leaves[p]) else None
  {
    JoinSplit(p);
    SplitSegmentsDotFree(p);
  }

  /** A path that has extensions is below or equal to a deepest one. */
  lemma {:induction false} SomeDeepest(paths: set<string>, p: string) returns (q: string)
    requires p in paths
    ensures Deepest(paths, q) && (q == p || Extends(q, p))
    decreases |paths|
  {
    if Deepest(paths, p) {
      q := p;
    } else {
      var r :| r in paths && Extends(r, p);
      q := SomeDeepest(paths - {p}, r);
      ExtendsTransitive(q, r, p);
    }
  }

  lemma {:induction false} ExtendsTransitive(q: string, r: string, p: string)
    requires (q == r || Extends(q, r)) && Extends(r, p)
    ensures Extends(q, p) && q != p && !Extends(p, q)
  {
    ExtendsIsProperPrefix(q, r);
    ExtendsIsProperPrefix(r, p);
    ExtendsIsProperPrefix(q, p);
    ExtendsIsProperPrefix(p, q);
  }

  /** Reading a rebuilt object along any path of the table gives the path's own value if nothing extends it, and
      otherwise an object with at least one key. */
  lemma {:induction false} DeepestPathWins(leaves: map<string, Json>, p: string)
    requires p in leaves && p != "" && forall q | q in leaves :: IsLeaf(leaves[q])
    ensures Deepest(leaves.Keys, p) ==> ReadAt(Object(Unflatten(leaves)), Split(p)) == Some(leaves[p])
    ensures !Deepest(leaves.Keys, p) ==>
              var r := ReadAt(Object(Unflatten(leaves)), Split(p));
              r.Some? && r.value.Object? && r.value.fields != map[]
  {
    if Deepest(leaves.Keys, p) {
      UnflattenReads(leaves, Split(p));
      DeepestLeafOfPath(leaves, p);
    } else {
      var q :| q in leaves && Extends(q, p);
      ExtensionsKeepObject(leaves, p, q);
    }
  }

  /** Whatever else is in the table, a place that some path passes through reads back as a non-empty object. */
  lemma {:induction false} ExtensionsKeepObject(leaves: map<string, Json>, p: string, q: string)
    requires q in leaves && Extends(q, p) && forall r | r in leaves :: IsLeaf(leaves[r])
    ensures var r := ReadAt(Object(Unflatten(leaves)), Split(p));
            r.Some? && r.value.Object? && r.value.fields != map[]
  {
    var d := SomeDeepest(leaves.Keys, q);
    if d != q { ExtendsTransitive(d, q, p); }
    ExtendsIsProperPrefix(d, p);
    var root := Object(Unflatten(leaves));
    UnflattenReads(leaves, Split(d));
    DeepestLeafOfPath(leaves, d);
    var rest := Split(d)[|Split(p)|..];
    assert Split(d) == Split(p) + rest;
    ReadAppend(root, Split(p), rest);
  }

  // ----- keys of a rebuilt object -----

  lemma {:induction false} SetAtKeys(m: map<string, Json>, segs: seq<string>, x: Json)
    requires segs != [] && DotFreeSegments(segs) && IsLeaf(x) && DotFreeKeys(Object(m))
    ensures DotFreeKeys(Object(SetAt(m, segs, x)))
    decreases segs
  {
    assert segs[0] in segs;
    if |segs| > 1 {
      SetAtKeys(ChildFields(m, segs[0]), segs[1..], x);
    }
  }

  lemma {:induction false} WriteAllKeys(leaves: map<string, Json>, paths: seq<string>)
    requires forall p | p in paths :: p in leaves && IsLeaf(leaves[p])
    ensures DotFreeKeys(Object(WriteAll(leaves, paths)))
    decreases |paths|
  {
    if paths != [] {
      var last := paths[|paths| - 1];
      assert last in paths;
      WriteAllKeys(leaves, paths[..|paths| - 1]);
      if last != "" {
        SplitSegmentsDotFree(last);
        SetAtKeys(WriteAll(leaves, paths[..|paths| - 1]), Split(last), leaves[last]);
      }
    }
  }

  /** A path whose first key is empty. */
  predicate LeadingDot(path: string) { path != "" && path[0] == '.' }

  lemma {:induction false} EmptyFirstSegment(path: string)
    requires path != ""
    ensures Split(path)[0] == "" <==> LeadingDot(path)
  {
  }

  /** Rebuilt objects have dot-free keys, and the empty key at the root exactly if some path begins with a dot. */
  lemma {:induction false} UnflattenKeys(leaves: map<string, Json>)
    requires forall p | p in leaves :: IsLeaf(leaves[p])
    ensures DotFreeKeys(Object(Unflatten(leaves)))
    ensures "" in Unflatten(leaves) <==> exists p | p in leaves :: LeadingDot(p)
  {
    var root := Object(Unflatten(leaves));
    WriteAllKeys(leaves, SortedKeys(leaves.Keys));
    if "" in Unflatten(leaves) {
      var rest := SomeLeaf(root.fields[""]);
      var segs := [""] + rest;
      assert segs[1..] == rest;
      UnflattenReads(leaves, segs);
      SplitJoin(segs);
      EmptyFirstSegment(Join(segs));
      assert Join(segs) in leaves;
    }
    if p :| p in leaves && LeadingDot(p) {
      var d := SomeDeepest(leaves.Keys, p);
      EmptyFirstSegment(d);
      UnflattenReads(leaves, Split(d));
      DeepestLeafOfPath(leaves, d);
    }
  }
}
