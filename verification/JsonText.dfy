/** The text encoding/json writes for a value, and the proof that it determines the value. */
module JsonText {
  import opened Text
  import opened Decimal
  import opened Json

  // ----- numbers -----

  function Zeros(n: nat): (s: string)
    ensures |s| == n && forall i | 0 <= i < n :: s[i] == '0'
  {
    seq(n, _ => '0')
  }

  function Abs(n: int): nat { if n < 0 then -n else n }

  predicate Exponential(point: int) { point <= -6 || point >= 22 }

  /** Shortest form: an exponent below 1e-6 and from 1e21 on, plain digits in between. */
  function MagnitudeText(digits: string, point: int): string
    requires digits != ""
  {
    if Exponential(point) then Mantissa(digits) + "e" + Exponent(point)
    else if point <= 0 then "0." + Zeros(-point) + digits
    else if point < |digits| then digits[..point] + "." + digits[point..]
    else digits + Zeros(point - |digits|)
  }

  function Mantissa(digits: string): string
    requires digits != ""
  {
    [digits[0]] + if |digits| > 1 then "." + digits[1..] else ""
  }

  function Exponent(point: int): string {
    [if point < 1 then '-' else '+'] + Print(Abs(point - 1))
  }

  function NumberText(n: Number): string {
    if n.digits == "" then "0"
    else if n.neg then "-" + MagnitudeText(n.digits, n.point)
    else MagnitudeText(n.digits, n.point)
  }

  // ----- strings -----

  function HexChar(d: nat): char
    requires d < 16
  {
    if d < 10 then DigitChar(d) else (d - 10 + 'a' as int) as char
  }

  /** the last `width` hexadecimal digits of n */
  function Hex(n: nat, width: nat): (s: string)
    ensures |s| == width
  {
    if width == 0 then "" else Hex(n / 16, width - 1) + [HexChar(n % 16)]
  }

  predicate NeedsHex(c: char) {
    var n := c as int;
    n < 0x20 || c == '<' || c == '>' || c == '&' || n == 0x2028 || n == 0x2029
  }

  function Escape(c: char): string {
    var n := c as int;
    if c == '"' then ['\\', '"']
    else if c == '\\' then ['\\', '\\']
    else if n == 8 then "\\b"
    else if n == 12 then "\\f"
    else if n == 10 then "\\n"
    else if n == 13 then "\\r"
    else if n == 9 then "\\t"
    else if NeedsHex(c) then "\\u" + Hex(n, 4)
    else [c]
  }

  // Every function below writes a piece of text in front of `rest`, what has still to be written.

  function WriteChars(s: string, rest: string): string {
    if s == [] then ['"'] + rest else Escape(s[0]) + WriteChars(s[1..], rest)
  }

  function WriteString(s: string, rest: string): string { ['"'] + WriteChars(s, rest) }

  // ----- values -----

  function Write(v: Json, rest: string): string
    decreases v
  {
    match v
    case Null => "null" + rest
    case Bool(b) => (if b then "true" else "false") + rest
    case Num(n) => NumberText(n) + rest
    case String(s) => WriteString(s, rest)
    case Array(es) =>
      if es == [] then "[]" + rest else ['['] + Write(es[0], WriteElems(es[1..], rest))
    case Object(m) =>
      var ks := SortedKeys(m.Keys);
      if ks == [] then "{}" + rest
      else
        assert ks[0] in ks;
        ['{'] + WriteString(ks[0], [':'] + Write(m[ks[0]], WriteMembers(v, ks[1..], rest)))
  }

  function WriteElems(es: seq<Json>, rest: string): string
    decreases es
  {
    if es == [] then [']'] + rest else [','] + Write(es[0], WriteElems(es[1..], rest))
  }

  function WriteMembers(v: Json, ks: seq<string>, rest: string): string
    requires v.Object? && forall k | k in ks :: k in v.fields
    decreases v, |ks|
  {
    if ks == [] then ['}'] + rest
    else [','] + WriteString(ks[0], [':'] + Write(v.fields[ks[0]], WriteMembers(v, ks[1..], rest)))
  }

  /** json.Marshal */
  function Encode(v: Json): string { Write(v, "") }

  // ----- the text of a number determines it -----

  lemma {:induction false} PrintInjective(a: nat, b: nat)
    requires Print(a) == Print(b)
    ensures a == b
  {
    ParsePrint(a);
    ParsePrint(b);
  }

  /** Cutting at the first occurrence of a character is unambiguous. */
  lemma {:induction false} CutUnique(a: string, b: string, x: string, y: string, c: char)
    requires a + [c] + x == b + [c] + y && c !in a && c !in b
    ensures a == b && x == y
  {
    var t := a + [c] + x;
    assert t[|a|] == c && t[|b|] == c;
    assert forall i | 0 <= i < |a| :: t[i] == a[i] && a[i] in a;
    assert forall i | 0 <= i < |b| :: t[i] == b[i] && b[i] in b;
    assert a == t[..|a|] && b == t[..|b|];
    assert x == t[|a| + 1..] && y == t[|b| + 1..];
  }

  lemma {:induction false} LeadingZerosUnique(a: nat, b: nat, s: string, t: string)
    requires Zeros(a) + s == Zeros(b) + t && s != "" && t != "" && s[0] != '0' && t[0] != '0'
    ensures a == b && s == t
  {
    var u := Zeros(a) + s;
    assert u[a] == s[0] && u[b] == t[0];
    assert s == u[a..] && t == u[b..];
  }

  lemma {:induction false} TrailingZerosUnique(s: string, t: string, a: nat, b: nat)
    requires s + Zeros(a) == t + Zeros(b) && s != "" && t != "" && NoTrailingZero(s) && NoTrailingZero(t)
    ensures s == t && a == b
  {
    var u := s + Zeros(a);
    assert |s| + a == |t| + b;
    assert u[|s| - 1] == s[|s| - 1] && u[|t| - 1] == t[|t| - 1];
    assert s == u[..|s|] && t == u[..|t|];
  }

  predicate Digits(digits: string) {
    AllDigits(digits) && NoTrailingZero(digits) && digits != "" && digits[0] != '0'
  }

  lemma {:induction false} MantissaUnique(s: string, t: string)
    requires Digits(s) && Digits(t) && Mantissa(s) == Mantissa(t)
    ensures s == t
  {
    assert s == [Mantissa(s)[0]] + if |s| > 1 then Mantissa(s)[2..] else "";
    assert t == [Mantissa(t)[0]] + if |t| > 1 then Mantissa(t)[2..] else "";
  }

  lemma {:induction false} ExponentUnique(p: int, q: int)
    requires Exponent(p) == Exponent(q)
    ensures p == q
  {
    assert Exponent(p)[1..] == Print(Abs(p - 1)) && Exponent(q)[1..] == Print(Abs(q - 1));
    PrintInjective(Abs(p - 1), Abs(q - 1));
  }

  lemma {:induction false} ExponentialUnique(s: string, p: int, t: string, q: int)
    requires Digits(s) && Digits(t) && Exponential(p) && Exponential(q)
    requires MagnitudeText(s, p) == MagnitudeText(t, q)
    ensures s == t && p == q
  {
    CutUnique(Mantissa(s), Mantissa(t), Exponent(p), Exponent(q), 'e');
    MantissaUnique(s, t);
    ExponentUnique(p, q);
  }

  /** The three plain forms are told apart by their first character and by having a point or not. */
  lemma {:induction false} PlainShape(s: string, p: int)
    requires Digits(s) && !Exponential(p)
    ensures 'e' !in MagnitudeText(s, p)
    ensures MagnitudeText(s, p)[0] == '0' <==> p <= 0
    ensures '.' in MagnitudeText(s, p) <==> p < |s|
  {
    var t := MagnitudeText(s, p);
    if p <= 0 {
      assert t[1] == '.';
    } else if p < |s| {
      assert t[p] == '.';
    }
  }

  lemma {:induction false} PlainUnique(s: string, p: int, t: string, q: int)
    requires Digits(s) && Digits(t) && !Exponential(p) && !Exponential(q)
    requires MagnitudeText(s, p) == MagnitudeText(t, q)
    ensures s == t && p == q
  {
    PlainShape(s, p);
    PlainShape(t, q);
    if p <= 0 {
      SmallUnique(s, p, t, q);
    } else if p < |s| {
      CutUnique(s[..p], t[..q], s[p..], t[q..], '.');
      assert s == s[..p] + s[p..] && t == t[..q] + t[q..];
    } else {
      TrailingZerosUnique(s, t, p - |s|, q - |t|);
    }
  }

  lemma {:induction false} SmallUnique(s: string, p: int, t: string, q: int)
    requires Digits(s) && Digits(t) && !Exponential(p) && !Exponential(q) && p <= 0 && q <= 0
    requires MagnitudeText(s, p) == MagnitudeText(t, q)
    ensures s == t && p == q
  {
    assert MagnitudeText(s, p)[2..] == Zeros(-p) + s;
    assert MagnitudeText(t, q)[2..] == Zeros(-q) + t;
    LeadingZerosUnique(-p, -q, s, t);
  }

  lemma {:induction false} MagnitudeTextUnique(s: string, p: int, t: string, q: int)
    requires Digits(s) && Digits(t) && MagnitudeText(s, p) == MagnitudeText(t, q)
    ensures s == t && p == q
  {
    ExponentialShape(s, p);
    ExponentialShape(t, q);
    if Exponential(p) {
      ExponentialUnique(s, p, t, q);
    } else {
      PlainUnique(s, p, t, q);
    }
  }

  lemma {:induction false} ExponentialShape(s: string, p: int)
    requires Digits(s)
    ensures 'e' in MagnitudeText(s, p) <==> Exponential(p)
    ensures IsDigit(MagnitudeText(s, p)[0])
    ensures |MagnitudeText(s, p)| > 1 || MagnitudeText(s, p)[0] != '0'
  {
    if Exponential(p) {
      assert MagnitudeText(s, p)[|Mantissa(s)|] == 'e';
    } else {
      PlainShape(s, p);
    }
  }

  lemma {:induction false} NumberTextUnique(a: Number, b: Number)
    requires NumberText(a) == NumberText(b)
    ensures a == b
  {
    if a.digits != "" { ExponentialShape(a.digits, a.point); }
    if b.digits != "" { ExponentialShape(b.digits, b.point); }
    if a.digits != "" && b.digits != "" {
      assert NumberText(a)[0] == '-' <==> a.neg;
      assert NumberText(b)[0] == '-' <==> b.neg;
      assert a.neg ==> NumberText(a)[1..] == MagnitudeText(a.digits, a.point);
      assert b.neg ==> NumberText(b)[1..] == MagnitudeText(b.digits, b.point);
      MagnitudeTextUnique(a.digits, a.point, b.digits, b.point);
    }
  }

  // ----- the text of a value determines it -----

  function Power16(width: nat): nat { if width == 0 then 1 else 16 * Power16(width - 1) }

  lemma {:induction false} HexUnique(a: nat, b: nat, width: nat)
    requires a < Power16(width) && b < Power16(width) && Hex(a, width) == Hex(b, width)
    ensures a == b
  {
    if width > 0 {
      var s, t := Hex(a, width), Hex(b, width);
      assert s[..width - 1] == Hex(a / 16, width - 1) && t[..width - 1] == Hex(b / 16, width - 1);
      assert s[width - 1] == HexChar(a % 16) && t[width - 1] == HexChar(b % 16);
      HexUnique(a / 16, b / 16, width - 1);
    }
  }

  lemma {:induction false} EscapeShape(c: char)
    ensures Escape(c) != "" && (Escape(c)[0] == '\\' <==> Escape(c) != [c])
    ensures Escape(c)[0] != '"'
    ensures Escape(c) != [c] ==> |Escape(c)| >= 2 && |Escape(c)| == if Escape(c)[1] == 'u' then 6 else 2
  {
  }

  lemma {:induction false} EscapeUnique(c: char, d: char, x: string, y: string)
    requires Escape(c) + x == Escape(d) + y
    ensures c == d && x == y
  {
    EscapeShape(c);
    EscapeShape(d);
    var t, a, b := Escape(c) + x, Escape(c), Escape(d);
    assert t[0] == a[0] == b[0];
    assert a != [c] ==> t[1] == a[1] == b[1];
    assert |a| == |b|;
    assert a == t[..|a|] && b == t[..|b|];
    assert x == t[|a|..] && y == t[|b|..];
    if |a| == 6 {
      assert a[2..] == Hex(c as int, 4) && b[2..] == Hex(d as int, 4);
      assert Power16(4) == 0x10000;
      HexUnique(c as int, d as int, 4);
    }
  }

  lemma {:induction false} StripUnique(p: string, x: string, y: string)
    requires p + x == p + y
    ensures x == y
  {
    assert x == (p + x)[|p|..] && y == (p + y)[|p|..];
  }

  lemma {:induction false} WriteCharsUnique(s: string, t: string, x: string, y: string)
    requires WriteChars(s, x) == WriteChars(t, y)
    ensures s == t && x == y
  {
    if s != [] { EscapeShape(s[0]); }
    if t != [] { EscapeShape(t[0]); }
    assert WriteChars(s, x)[0] == '"' <==> s == [];
    assert WriteChars(t, y)[0] == '"' <==> t == [];
    if s == [] {
      StripUnique(['"'], x, y);
    } else {
      EscapeUnique(s[0], t[0], WriteChars(s[1..], x), WriteChars(t[1..], y));
      WriteCharsUnique(s[1..], t[1..], x, y);
      assert s == [s[0]] + s[1..] && t == [t[0]] + t[1..];
    }
  }

  lemma {:induction false} WriteStringUnique(s: string, t: string, x: string, y: string)
    requires WriteString(s, x) == WriteString(t, y)
    ensures s == t && x == y
  {
    StripUnique(['"'], WriteChars(s, x), WriteChars(t, y));
    WriteCharsUnique(s, t, x, y);
  }

  /** What can follow a value inside a larger text. */
  predicate Ends(x: string) { x == "" || x[0] in ",]}" }

  predicate NumberChar(c: char) { IsDigit(c) || c in ".e+-" }

  predicate NumberChars(s: string) { forall i | 0 <= i < |s| :: NumberChar(s[i]) }

  lemma {:induction false} NumberTextChars(n: Number)
    ensures NumberText(n) != "" && NumberChars(NumberText(n))
    ensures NumberText(n)[0] == '-' || IsDigit(NumberText(n)[0])
  {
  }

  lemma {:induction false} MunchUnique(s: string, t: string, x: string, y: string)
    requires s + x == t + y && NumberChars(s) && NumberChars(t) && Ends(x) && Ends(y)
    ensures s == t && x == y
  {
    var u := s + x;
    assert forall i | 0 <= i < |s| :: u[i] == s[i];
    assert forall i | 0 <= i < |t| :: u[i] == t[i];
    assert x != "" ==> u[|s|] == x[0] && !NumberChar(x[0]);
    assert y != "" ==> u[|t|] == y[0] && !NumberChar(y[0]);
    assert s == u[..|s|] && t == u[..|t|];
    assert x == u[|s|..] && y == u[|t|..];
  }

  /** The position of a value's kind in the order of the texts: what the first character decides. */
  function Rank(v: Json): nat {
    match v
    case String(_) => 0
    case Num(_) => 1
    case Array(_) => 2
    case Bool(b) => if b then 5 else 3
    case Null => 4
    case Object(_) => 6
  }

  function RankOfHead(c: char): nat {
    if c == '"' then 0 else if c == '-' || IsDigit(c) then 1 else if c == '[' then 2
    else if c == 'f' then 3 else if c == 'n' then 4 else if c == 't' then 5 else 6
  }

  lemma {:induction false} WriteHead(v: Json, x: string)
    ensures Write(v, x) != "" && RankOfHead(Write(v, x)[0]) == Rank(v)
    ensures !Ends(Write(v, x))
  {
    if v.Num? {
      NumberTextChars(v.n);
    }
  }

  /** json.Marshal texts of values of different rank are ordered by rank alone. */
  lemma {:induction false} RankDecides(a: Json, b: Json)
    requires Rank(a) < Rank(b)
    ensures Le(Encode(a), Encode(b)) && !Le(Encode(b), Encode(a))
  {
    WriteHead(a, "");
    WriteHead(b, "");
  }

  lemma {:induction false} WriteUnique(v: Json, w: Json, x: string, y: string)
    requires Write(v, x) == Write(w, y) && Ends(x) && Ends(y)
    ensures v == w && x == y
    decreases v, 2
  {
    WriteHead(v, x);
    WriteHead(w, y);
    match v
    case Null => StripUnique("null", x, y);
    case Bool(b) => StripUnique(if b then "true" else "false", x, y);
    case Num(n) =>
      NumberTextChars(n);
      NumberTextChars(w.n);
      MunchUnique(NumberText(n), NumberText(w.n), x, y);
      NumberTextUnique(n, w.n);
    case String(s) => WriteStringUnique(s, w.s, x, y);
    case Array(es) => WriteArrayUnique(v, w, x, y);
    case Object(m) => WriteObjectUnique(v, w, x, y);
  }

  lemma {:induction false} WriteElemsUnique(es: seq<Json>, fs: seq<Json>, x: string, y: string)
    requires WriteElems(es, x) == WriteElems(fs, y)
    ensures es == fs && x == y
    decreases es, 0
  {
    assert WriteElems(es, x)[0] == ']' <==> es == [];
    assert WriteElems(fs, y)[0] == ']' <==> fs == [];
    if es == [] {
      StripUnique([']'], x, y);
    } else {
      var p, q := WriteElems(es[1..], x), WriteElems(fs[1..], y);
      StripUnique([','], Write(es[0], p), Write(fs[0], q));
      WriteUnique(es[0], fs[0], p, q);
      WriteElemsUnique(es[1..], fs[1..], x, y);
      assert es == [es[0]] + es[1..] && fs == [fs[0]] + fs[1..];
    }
  }

  lemma {:induction false} WriteArrayUnique(v: Json, w: Json, x: string, y: string)
    requires v.Array? && w.Array?
    requires Write(v, x) == Write(w, y)
    ensures v == w && x == y
    decreases v, 1
  {
    var es, fs := v.elems, w.elems;
    if es != [] { WriteHead(es[0], WriteElems(es[1..], x)); }
    if fs != [] { WriteHead(fs[0], WriteElems(fs[1..], y)); }
    assert Write(v, x)[1] == ']' <==> es == [];
    assert Write(w, y)[1] == ']' <==> fs == [];
    if es == [] {
      StripUnique("[]", x, y);
    } else {
      var p, q := WriteElems(es[1..], x), WriteElems(fs[1..], y);
      StripUnique(['['], Write(es[0], p), Write(fs[0], q));
      WriteUnique(es[0], fs[0], p, q);
      WriteElemsUnique(es[1..], fs[1..], x, y);
      assert es == [es[0]] + es[1..] && fs == [fs[0]] + fs[1..];
    }
  }

  predicate KeysOf(ks: seq<string>, v: Json) {
    v.Object? && forall k | k in ks :: k in v.fields
  }

  lemma {:induction false} WriteMemberUnique(v: Json, w: Json, k: string, l: string, x: string, y: string)
    requires v.Object? && w.Object? && k in v.fields && l in w.fields
    requires WriteString(k, [':'] + Write(v.fields[k], x)) == WriteString(l, [':'] + Write(w.fields[l], y))
    requires Ends(x) && Ends(y)
    ensures k == l && v.fields[k] == w.fields[l] && x == y
    decreases v, 0, 0
  {
    WriteStringUnique(k, l, [':'] + Write(v.fields[k], x), [':'] + Write(w.fields[l], y));
    StripUnique([':'], Write(v.fields[k], x), Write(w.fields[l], y));
    WriteUnique(v.fields[k], w.fields[l], x, y);
  }

  lemma {:induction false} WriteMembersUnique(v: Json, w: Json, ks: seq<string>, ls: seq<string>,
                                              x: string, y: string)
    requires KeysOf(ks, v) && KeysOf(ls, w)
    requires WriteMembers(v, ks, x) == WriteMembers(w, ls, y)
    ensures ks == ls && x == y && forall k | k in ks :: v.fields[k] == w.fields[k]
    decreases v, 0, 1, |ks|
  {
    assert WriteMembers(v, ks, x)[0] == '}' <==> ks == [];
    assert WriteMembers(w, ls, y)[0] == '}' <==> ls == [];
    if ks == [] {
      StripUnique(['}'], x, y);
    } else {
      var p, q := WriteMembers(v, ks[1..], x), WriteMembers(w, ls[1..], y);
      StripUnique([','], WriteString(ks[0], [':'] + Write(v.fields[ks[0]], p)),
                         WriteString(ls[0], [':'] + Write(w.fields[ls[0]], q)));
      WriteMemberUnique(v, w, ks[0], ls[0], p, q);
      WriteMembersUnique(v, w, ks[1..], ls[1..], x, y);
      assert ks == [ks[0]] + ks[1..] && ls == [ls[0]] + ls[1..];
    }
  }

  lemma {:induction false} ObjectKeys(v: Json, ks: seq<string>)
    requires v.Object? && ks == SortedKeys(v.fields.Keys)
    ensures KeysOf(ks, v) && (ks != [] ==> KeysOf(ks[1..], v) && ks[0] in v.fields)
    ensures forall k | k in v.fields :: k in ks
  {
    assert ks != [] ==> ks[0] in ks;
  }

  lemma {:induction false} ObjectShape(v: Json, ks: seq<string>, x: string)
    requires v.Object? && ks == SortedKeys(v.fields.Keys)
    requires ks != [] ==> KeysOf(ks[1..], v) && ks[0] in v.fields
    ensures Write(v, x)[1] == '}' <==> ks == []
    ensures ks != [] ==>
      Write(v, x) == ['{'] + WriteString(ks[0], [':'] + Write(v.fields[ks[0]], WriteMembers(v, ks[1..], x)))
  {
  }

  lemma {:induction false} SameFields(v: Json, w: Json, ks: seq<string>)
    requires v.Object? && w.Object? && ks == SortedKeys(v.fields.Keys) == SortedKeys(w.fields.Keys)
    requires KeysOf(ks, v) && KeysOf(ks, w) && forall k | k in ks :: v.fields[k] == w.fields[k]
    ensures v == w
  {
    assert v.fields == w.fields;
  }

  lemma {:induction false} WriteObjectUnique(v: Json, w: Json, x: string, y: string)
    requires v.Object? && w.Object?
    requires Write(v, x) == Write(w, y)
    ensures v == w && x == y
    decreases v, 1
  {
    var ks, ls := SortedKeys(v.fields.Keys), SortedKeys(w.fields.Keys);
    ObjectKeys(v, ks);
    ObjectKeys(w, ls);
    ObjectShape(v, ks, x);
    ObjectShape(w, ls, y);
    if ks == [] {
      StripUnique("{}", x, y);
    } else {
      var p, q := WriteMembers(v, ks[1..], x), WriteMembers(w, ls[1..], y);
      StripUnique(['{'], WriteString(ks[0], [':'] + Write(v.fields[ks[0]], p)),
                         WriteString(ls[0], [':'] + Write(w.fields[ls[0]], q)));
      WriteMemberUnique(v, w, ks[0], ls[0], p, q);
      WriteMembersUnique(v, w, ks[1..], ls[1..], x, y);
      assert ks == [ks[0]] + ks[1..] && ls == [ls[0]] + ls[1..];
    }
    SameFields(v, w, ks);
  }

  /** Equal texts come from equal values. */
  lemma {:induction false} EncodeInjective(v: Json, w: Json)
    requires Encode(v) == Encode(w)
    ensures v == w
  {
    WriteUnique(v, w, "", "");
  }
}
