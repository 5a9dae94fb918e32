/** Strings as the Go program sees them: byte order, sorting, dotted paths, trimming and lower-casing.
    Go compares strings byte by byte; on valid UTF-8 that is the order of the code points, which is the order
    of `char` here. */
module Text {

  // ----- order -----

  predicate Le(a: string, b: string) {
    a == [] || (b != [] && (a[0] < b[0] || (a[0] == b[0] && Le(a[1..], b[1..]))))
  }

  lemma {:induction false} LeTotal(a: string, b: string)
    ensures Le(a, b) || Le(b, a)
  {
    if a != [] && b != [] && a[0] == b[0] {
      LeTotal(a[1..], b[1..]);
    }
  }

  lemma {:induction false} LeAntisymmetric(a: string, b: string)
    requires Le(a, b) && Le(b, a)
    ensures a == b
  {
    if a != [] && b != [] {
      LeAntisymmetric(a[1..], b[1..]);
      assert a == [a[0]] + a[1..] && b == [b[0]] + b[1..];
    }
  }

  lemma {:induction false} LeTransitive(a: string, b: string, c: string)
    requires Le(a, b) && Le(b, c)
    ensures Le(a, c)
  {
    if a != [] && a[0] == b[0] == c[0] {
      LeTransitive(a[1..], b[1..], c[1..]);
    }
  }

  /** A string never sorts after one that it is a prefix of. */
  lemma {:induction false} PrefixIsLe(a: string, b: string)
    requires a <= b
    ensures Le(a, b)
  {
    if a != [] {
      PrefixIsLe(a[1..], b[1..]);
    }
  }

  /** One string is a prefix of the other, or the first character at which they differ is smaller. */
  ghost predicate Before(a: string, b: string) {
    a <= b || exists k: nat | k < |a| && k < |b| :: a[..k] == b[..k] && a[k] < b[k]
  }

  /** The order is the one of dictionaries. */
  lemma {:induction false} LeIsBefore(a: string, b: string)
    ensures Le(a, b) <==> Before(a, b)
  {
    if a != [] && b != [] {
      if a[0] == b[0] {
        LeIsBefore(a[1..], b[1..]);
        SameFirst(a, b);
      } else {
        FirstDiffers(a, b);
      }
    }
  }

  lemma {:induction false} FirstDiffers(a: string, b: string)
    requires a != [] && b != [] && a[0] != b[0]
    ensures Before(a, b) <==> a[0] < b[0]
  {
    if a[0] < b[0] { assert a[..0] == b[..0]; }
    forall k: nat | 0 < k < |a| && k < |b| ensures a[..k] != b[..k] {
      assert a[..k][0] == a[0] && b[..k][0] == b[0];
    }
  }

  lemma {:induction false} SameFirst(a: string, b: string)
    requires a != [] && b != [] && a[0] == b[0]
    ensures Before(a, b) <==> Before(a[1..], b[1..])
  {
    var x, y := a[1..], b[1..];
    assert a == [a[0]] + x && b == [b[0]] + y;
    if !(x <= y) && Before(x, y) {
      var k: nat :| k < |x| && k < |y| && x[..k] == y[..k] && x[k] < y[k];
      assert a[..k + 1] == [a[0]] + x[..k] && b[..k + 1] == [b[0]] + y[..k];
    }
    if !(a <= b) && Before(a, b) {
      var k: nat :| k < |a| && k < |b| && a[..k] == b[..k] && a[k] < b[k];
      assert x[..k - 1] == a[..k][1..] && y[..k - 1] == b[..k][1..];
    }
  }

  // ----- sort.Strings -----

  predicate Sorted(s: seq<string>) {
    forall i, j | 0 <= i < j < |s| :: Le(s[i], s[j])
  }

  function Insert(x: string, s: seq<string>): seq<string> {
    if s == [] then [x]
    else if Le(x, s[0]) then [x] + s
    else [s[0]] + Insert(x, s[1..])
  }

  lemma {:induction false} InsertElements(x: string, s: seq<string>)
    ensures multiset(Insert(x, s)) == multiset(s) + multiset{x}
  {
    if s != [] && !Le(x, s[0]) {
      InsertElements(x, s[1..]);
      assert s == [s[0]] + s[1..];
    }
  }

  lemma {:induction false} InsertSorted(x: string, s: seq<string>)
    requires Sorted(s)
    ensures Sorted(Insert(x, s))
  {
    if s == [] {
    } else if Le(x, s[0]) {
      forall j | 0 <= j < |s| ensures Le(x, s[j]) {
        if j > 0 { LeTransitive(x, s[0], s[j]); }
      }
    } else {
      InsertSorted(x, s[1..]);
      InsertElements(x, s[1..]);
      LeTotal(x, s[0]);
      var t := Insert(x, s[1..]);
      forall j | 0 <= j < |t| ensures Le(s[0], t[j]) {
        assert t[j] in multiset(t);
        assert t[j] == x || t[j] in multiset(s[1..]);
      }
    }
  }

  /** The library sort: the sorted arrangement of the same strings. */
  function Sort(s: seq<string>): (r: seq<string>)
    ensures Sorted(r)
    ensures multiset(r) == multiset(s)
  {
    if s == [] then []
    else
      var t := Sort(s[1..]);
      assert s == [s[0]] + s[1..];
      InsertSorted(s[0], t);
      InsertElements(s[0], t);
      Insert(s[0], t)
  }

  lemma {:induction false} HeadIsLeast(s: seq<string>, x: string)
    requires Sorted(s) && x in multiset(s)
    ensures s != [] && Le(s[0], x)
  {
    LeTotal(x, x);
  }

  lemma {:induction false} TailElements<T>(s: seq<T>)
    requires s != []
    ensures multiset(s[1..]) == multiset(s) - multiset{s[0]}
  {
    assert s == [s[0]] + s[1..];
  }

  lemma {:induction false} SameHead(s: seq<string>, t: seq<string>)
    requires Sorted(s) && Sorted(t) && multiset(s) == multiset(t) && s != []
    ensures t != [] && s[0] == t[0]
  {
    assert s[0] in multiset(s);
    HeadIsLeast(t, s[0]);
    assert t[0] in multiset(t);
    HeadIsLeast(s, t[0]);
    LeAntisymmetric(s[0], t[0]);
  }

  /** Two sorted sequences with the same elements are the same sequence. */
  lemma {:induction false} SortedUnique(s: seq<string>, t: seq<string>)
    requires Sorted(s) && Sorted(t) && multiset(s) == multiset(t)
    ensures s == t
  {
    if s == [] {
      assert |t| == |multiset(t)| == 0;
    } else {
      SameHead(s, t);
      TailElements(s);
      TailElements(t);
      SortedUnique(s[1..], t[1..]);
      assert s == [s[0]] + s[1..] && t == [t[0]] + t[1..];
    }
  }

  // ----- the sorted keys of a map -----

  predicate IsLeast(m: string, ks: set<string>) {
    m in ks && forall k | k in ks :: Le(m, k)
  }

  lemma {:induction false} LeastExists(ks: set<string>)
    requires ks != {}
    ensures exists m :: IsLeast(m, ks)
    decreases |ks|
  {
    var x :| x in ks;
    var rest := ks - {x};
    if rest == {} {
      assert ks == {x};
      LeTotal(x, x);
      assert IsLeast(x, ks);
    } else {
      LeastExists(rest);
      var m :| IsLeast(m, rest);
      LeTotal(x, m);
      LeTotal(x, x);
      if Le(x, m) {
        forall k | k in ks ensures Le(x, k) {
          if k != x { LeTransitive(x, m, k); }
        }
        assert IsLeast(x, ks);
      } else {
        assert IsLeast(m, ks);
      }
    }
  }

  function Least(ks: set<string>): (m: string)
    requires ks != {}
    ensures IsLeast(m, ks)
  {
    LeastExists(ks);
    assert forall m, n | IsLeast(m, ks) && IsLeast(n, ks) :: m == n by {
      forall m, n | IsLeast(m, ks) && IsLeast(n, ks) ensures m == n { LeAntisymmetric(m, n); }
    }
    var m :| m in ks && IsLeast(m, ks);
    m
  }

  predicate Distinct<T(==)>(s: seq<T>) {
    forall i, j | 0 <= i < j < |s| :: s[i] != s[j]
  }

  /** The keys of a map in sorted order, each once. */
  function SortedKeys(ks: set<string>): (r: seq<string>)
    ensures Sorted(r) && Distinct(r)
    ensures forall k :: k in r <==> k in ks
    decreases |ks|
  {
    if ks == {} then []
    else
      var m := Least(ks);
      var r := SortedKeys(ks - {m});
      assert forall j | 0 <= j < |r| :: r[j] in r && r[j] in ks - {m};
      [m] + r
  }

  // ----- dotted paths -----

  predicate DotFree(s: string) { '.' !in s }

  /** Puts a character in front of an already split string. */
  function Prepend(c: char, r: seq<string>): (t: seq<string>)
    requires r != []
    ensures t != []
  {
    if c == '.' then [""] + r else [[c] + r[0]] + r[1..]
  }

  /** strings.Split(s, ".") */
  function Split(s: string): (r: seq<string>)
    ensures r != []
  {
    if s == [] then [""] else Prepend(s[0], Split(s[1..]))
  }

  lemma {:induction false} SplitSegmentsDotFree(s: string)
    ensures forall x | x in Split(s) :: DotFree(x)
  {
    if s != [] {
      var r := Split(s[1..]);
      SplitSegmentsDotFree(s[1..]);
      assert r[0] in r;
      forall x | x in Split(s) ensures DotFree(x) {
        if x !in r && s[0] != '.' {
          assert x == [s[0]] + r[0];
        }
      }
    }
  }

  lemma {:induction false} PrependAppend(c: char, r: seq<string>, t: seq<string>)
    requires r != []
    ensures Prepend(c, r + t) == Prepend(c, r) + t
  {
    assert (r + t)[1..] == r[1..] + t;
  }

  /** strings.Join(segs, ".") */
  function Join(segs: seq<string>): string
    requires segs != []
  {
    if |segs| == 1 then segs[0] else segs[0] + "." + Join(segs[1..])
  }

  lemma {:induction false} SplitDotFree(s: string)
    requires DotFree(s)
    ensures Split(s) == [s]
  {
    if s != [] {
      SplitDotFree(s[1..]);
      assert [s[0]] + s[1..] == s;
    }
  }

  lemma {:induction false} SplitAppend(a: string, b: string)
    ensures Split(a + "." + b) == Split(a) + Split(b)
  {
    var t := a + "." + b;
    if a == [] {
      assert t == "." + b && t[1..] == b;
    } else {
      SplitAppend(a[1..], b);
      assert t[0] == a[0] && t[1..] == a[1..] + "." + b;
      PrependAppend(a[0], Split(a[1..]), Split(b));
    }
  }

  lemma {:induction false} JoinSplit(s: string)
    ensures Join(Split(s)) == s
  {
    if s != [] {
      JoinSplit(s[1..]);
      var r := Split(s[1..]);
      if s[0] == '.' {
        assert ([""] + r)[1..] == r;
      } else {
        var t := [[s[0]] + r[0]] + r[1..];
        if |r| > 1 { assert t[1..] == r[1..]; }
      }
    }
  }

  /** Split and Join are inverse to each other between strings and non-empty lists of dot-free segments. */
  lemma {:induction false} SplitJoin(segs: seq<string>)
    requires segs != [] && forall x | x in segs :: DotFree(x)
    ensures Split(Join(segs)) == segs
  {
    SplitDotFree(segs[0]);
    if |segs| > 1 {
      SplitJoin(segs[1..]);
      SplitAppend(segs[0], Join(segs[1..]));
      assert [segs[0]] + segs[1..] == segs;
    }
  }

  lemma {:induction false} SplitInjective(a: string, b: string)
    requires Split(a) == Split(b)
    ensures a == b
  {
    JoinSplit(a);
    JoinSplit(b);
  }

  lemma {:induction false} JoinAppend(a: seq<string>, b: seq<string>)
    requires a != [] && b != []
    ensures Join(a + b) == Join(a) + "." + Join(b)
  {
    if |a| == 1 {
      assert (a + b)[1..] == b;
    } else {
      JoinAppend(a[1..], b);
      assert (a + b)[1..] == a[1..] + b;
      assert Join(a + b) == a[0] + "." + Join(a[1..] + b);
      assert a[0] + "." + (Join(a[1..]) + "." + Join(b)) == a[0] + "." + Join(a[1..]) + "." + Join(b);
    }
  }

  /** q lies strictly below p in the tree that dotted paths address. */
  predicate Extends(q: string, p: string) { p + "." <= q }

  lemma {:induction false} ExtendsIsProperPrefix(q: string, p: string)
    ensures Extends(q, p) <==> Split(p) < Split(q)
  {
    if Extends(q, p) {
      var b := q[|p| + 1..];
      assert q == p + "." + b;
      SplitAppend(p, b);
    }
    if Split(p) < Split(q) {
      var rest := Split(q)[|Split(p)|..];
      assert Split(q) == Split(p) + rest;
      JoinAppend(Split(p), rest);
      JoinSplit(p);
      JoinSplit(q);
    }
  }

  // ----- TrimSpace, ToLower and the tests on setting names -----

  /** unicode.IsSpace */
  predicate IsSpace(c: char) {
    var n := c as int;
    9 <= n <= 13 || n == 0x20 || n == 0x85 || n == 0xA0 || n == 0x1680 || 0x2000 <= n <= 0x200A ||
    n == 0x2028 || n == 0x2029 || n == 0x202F || n == 0x205F || n == 0x3000
  }

  function TrimLeft(s: string): string {
    if s != [] && IsSpace(s[0]) then TrimLeft(s[1..]) else s
  }

  function TrimRight(s: string): string {
    if s != [] && IsSpace(s[|s| - 1]) then TrimRight(s[..|s| - 1]) else s
  }

  function TrimSpace(s: string): string { TrimRight(TrimLeft(s)) }

  /** unicode.ToLower, exact for every character whose lower case is an ASCII letter (the capitals, U+0130 and
      the Kelvin sign U+212A); no other character can occur in the ASCII names the program tests for. */
  function LowerChar(c: char): char {
    if 'A' <= c <= 'Z' then ((c as int) + 32) as char
    else if c as int == 0x130 then 'i'
    else if c as int == 0x212A then 'k'
    else c
  }

  function ToLower(s: string): string {
    if s == [] then [] else [LowerChar(s[0])] + ToLower(s[1..])
  }

  predicate HasSuffix(s: string, suffix: string) {
    |suffix| <= |s| && s[|s| - |suffix|..] == suffix
  }

  predicate Contains(s: string, sub: string) {
    sub <= s || (s != [] && Contains(s[1..], sub))
  }

  /** A trimmed string stays as it is. */
  lemma {:induction false} TrimNothing(s: string)
    requires s != "" ==> !IsSpace(s[0]) && !IsSpace(s[|s| - 1])
    ensures TrimSpace(s) == s
  {
  }

  // ----- what the tests on names find -----

  /** The name has a part that reads like this, in capitals or not. */
  ghost predicate HasPart(s: string, part: string) {
    exists a: string, m: string, b: string :: s == a + m + b && ToLower(m) == part
  }

  /** The name ends in something that reads like this, in capitals or not. */
  ghost predicate EndsIn(s: string, part: string) {
    exists a: string, m: string :: s == a + m && ToLower(m) == part
  }

  lemma {:induction false} LowerAppend(a: string, b: string)
    ensures ToLower(a + b) == ToLower(a) + ToLower(b)
  {
    if a == [] {
      assert a + b == b;
    } else {
      assert (a + b)[1..] == a[1..] + b;
      LowerAppend(a[1..], b);
    }
  }

  /** Lower-casing works character by character, and changes no ASCII character but the capitals. */
  lemma {:induction false} LowerEach(s: string, i: nat)
    requires i < |s|
    ensures |ToLower(s)| == |s|
    ensures s[i] as int < 128 ==>
      ToLower(s)[i] as int == if 'A' <= s[i] <= 'Z' then s[i] as int + 32 else s[i] as int
  {
    LowerLength(s);
    if i > 0 { LowerEach(s[1..], i - 1); }
  }

  lemma {:induction false} LowerLength(s: string)
    ensures |ToLower(s)| == |s|
  {
    if s != [] { LowerLength(s[1..]); }
  }

  lemma {:induction false} LowerCut(s: string, n: nat)
    requires n <= |s|
    ensures |ToLower(s)| == |s| && ToLower(s[..n]) == ToLower(s)[..n] && ToLower(s[n..]) == ToLower(s)[n..]
  {
    LowerLength(s);
    LowerLength(s[..n]);
    LowerAppend(s[..n], s[n..]);
    assert s[..n] + s[n..] == s;
  }

  lemma {:induction false} ContainsAt(s: string, sub: string) returns (a: string, b: string)
    requires Contains(s, sub)
    ensures s == a + sub + b
  {
    if sub <= s {
      a, b := [], s[|sub|..];
    } else {
      a, b := ContainsAt(s[1..], sub);
      a := [s[0]] + a;
    }
  }

  lemma {:induction false} ContainsPart(a: string, sub: string, b: string)
    ensures Contains(a + sub + b, sub)
  {
    if a == [] {
      assert sub <= a + sub + b;
    } else {
      ContainsPart(a[1..], sub, b);
      assert (a + sub + b)[1..] == a[1..] + sub + b;
    }
  }

  lemma {:induction false} PartOfName(s: string, part: string)
    requires Contains(ToLower(s), part)
    ensures HasPart(s, part)
  {
    var a, b := ContainsAt(ToLower(s), part);
    var n := |a|;
    LowerLength(s);
    LowerCut(s, n);
    LowerCut(s[n..], |part|);
    assert ToLower(s)[n..] == part + b;
    assert s == s[..n] + s[n..][..|part|] + s[n..][|part|..];
  }

  lemma {:induction false} HasPartIff(s: string, part: string)
    ensures HasPart(s, part) <==> Contains(ToLower(s), part)
  {
    if Contains(ToLower(s), part) { PartOfName(s, part); }
    if HasPart(s, part) {
      var a: string, m: string, b: string :| s == a + m + b && ToLower(m) == part;
      LowerAppend(a + m, b);
      LowerAppend(a, m);
      ContainsPart(ToLower(a), part, ToLower(b));
    }
  }

  lemma {:induction false} EndsInIff(s: string, part: string)
    ensures EndsIn(s, part) <==> HasSuffix(ToLower(s), part)
  {
    LowerLength(s);
    if HasSuffix(ToLower(s), part) {
      var n := |s| - |part|;
      LowerCut(s, n);
      assert s == s[..n] + s[n..];
    }
    if EndsIn(s, part) {
      var a: string, m: string :| s == a + m && ToLower(m) == part;
      LowerAppend(a, m);
      LowerLength(m);
    }
  }

  /** Blank, tab and line breaks are white space; no printing ASCII character is. */
  lemma {:induction false} AsciiSpaces(c: char)
    requires c as int < 128
    ensures IsSpace(c) <==> c == ' ' || c == '\t' || c == '\n' || c == '\r' || c as int == 11 || c as int == 12
  {
  }

  predicate AllSpaces(s: string) { forall c | c in s :: IsSpace(c) }

  /** Trimming takes white space off both ends, and nothing else. */
  lemma {:induction false} TrimmedParts(s: string) returns (a: string, b: string)
    ensures s == a + TrimSpace(s) + b && AllSpaces(a) && AllSpaces(b)
    ensures var t := TrimSpace(s); t != [] ==> !IsSpace(t[0]) && !IsSpace(t[|t| - 1])
  {
    a := TrimmedLeft(s);
    b := TrimmedRight(TrimLeft(s));
    assert s == a + (TrimSpace(s) + b);
  }

  lemma {:induction false} TrimmedLeft(s: string) returns (a: string)
    ensures s == a + TrimLeft(s) && AllSpaces(a) && (TrimLeft(s) != [] ==> !IsSpace(TrimLeft(s)[0]))
  {
    if s != [] && IsSpace(s[0]) {
      a := TrimmedLeft(s[1..]);
      a := [s[0]] + a;
    } else {
      a := [];
    }
  }

  lemma {:induction false} TrimmedRight(s: string) returns (b: string)
    ensures s == TrimRight(s) + b && AllSpaces(b)
    ensures var t := TrimRight(s); t != [] ==> t[0] == s[0] && !IsSpace(t[|t| - 1])
  {
    if s != [] && IsSpace(s[|s| - 1]) {
      b := TrimmedRight(s[..|s| - 1]);
      b := b + [s[|s| - 1]];
    } else {
      b := [];
    }
  }

  /** The last segment of a trimmed dotted path. */
  function PathLeaf(path: string): string {
    var segs := Split(TrimSpace(path));
    segs[|segs| - 1]
  }

  /** It is what follows the last dot, or all of it. */
  lemma {:induction false} PathLeafIsLast(path: string) returns (front: string)
    ensures DotFree(PathLeaf(path))
    ensures TrimSpace(path) == PathLeaf(path) || TrimSpace(path) == front + "." + PathLeaf(path)
  {
    var segs := Split(TrimSpace(path));
    SplitSegmentsDotFree(TrimSpace(path));
    JoinSplit(TrimSpace(path));
    var n := |segs| - 1;
    assert segs[n] in segs;
    front := "";
    if n > 0 {
      assert segs == segs[..n] + [segs[n]];
      JoinAppend(segs[..n], [segs[n]]);
      front := Join(segs[..n]);
    }
  }
}
