/** The text of a value, by the grammar of section 2 of RFC 8259: the writer that puts each piece in front of the rest yields
    the text that the grammar builds from the parts. */
module JsonGrammar {
  import opened Text
  import opened Json
  import opened JsonText

  /** The texts, with a comma between them. */
  function Commas(texts: seq<string>): string {
    if texts == [] then ""
    else if |texts| == 1 then texts[0]
    else texts[0] + "," + Commas(texts[1..])
  }

  function Texts(es: seq<Json>): seq<string> { seq(|es|, i requires 0 <= i < |es| => Encode(es[i])) }

  /** The characters of a string, each as it is written. */
  function Chars(s: string): string { if s == [] then "" else Escape(s[0]) + Chars(s[1..]) }

  lemma {:induction false} Regroup(a: string, b: string, c: string)
    ensures a + (b + c) == a + b + c
  {
  }

  lemma {:induction false} CharsBefore(s: string, rest: string)
    ensures WriteChars(s, rest) == Chars(s) + "\"" + rest
  {
    if s != [] {
      CharsBefore(s[1..], rest);
      Regroup(Escape(s[0]), Chars(s[1..]) + "\"", rest);
      Regroup(Escape(s[0]), Chars(s[1..]), "\"");
    }
  }

  lemma {:induction false} StringBefore(s: string, rest: string)
    ensures WriteString(s, rest) == "\"" + Chars(s) + "\"" + rest
  {
    CharsBefore(s, rest);
    Regroup("\"", Chars(s) + "\"", rest);
    Regroup("\"", Chars(s), "\"");
  }

  /** What is written before the rest does not depend on the rest. */
  lemma {:induction false} TextBefore(v: Json, rest: string)
    ensures Write(v, rest) == Encode(v) + rest
    decreases v, 2
  {
    match v
    case String(s) =>
      StringBefore(s, rest);
      StringBefore(s, "");
    case Array(es) =>
      if es != [] {
        ElemsBefore(es[1..], rest);
        ElemsBefore(es[1..], "");
        var w := WriteElems(es[1..], "");
        TextBefore(es[0], WriteElems(es[1..], rest));
        TextBefore(es[0], w);
        Regroup("[" + Encode(es[0]), w, rest);
      }
    case Object(m) =>
      var ks := SortedKeys(m.Keys);
      if ks != [] { ObjectBefore(v, ks, rest); }
    case _ =>
  }

  lemma {:induction false} ObjectBefore(v: Json, ks: seq<string>, rest: string)
    requires v.Object? && ks != [] && forall k | k in ks :: k in v.fields
    ensures ks[0] in ks && (forall k | k in ks[1..] :: k in v.fields)
    ensures ['{'] + WriteString(ks[0], [':'] + Write(v.fields[ks[0]], WriteMembers(v, ks[1..], rest)))
         == ['{'] + WriteString(ks[0], [':'] + Write(v.fields[ks[0]], WriteMembers(v, ks[1..], ""))) + rest
    decreases v, 1, |ks| + 1
  {
    assert ks[0] in ks;
    MemberBefore(v, ks[0], WriteMembers(v, ks[1..], rest));
    MemberBefore(v, ks[0], WriteMembers(v, ks[1..], ""));
    MembersBefore(v, ks[1..], rest);
    Regroup("{" + MemberText(v, ks[0]), WriteMembers(v, ks[1..], ""), rest);
  }

  lemma {:induction false} ElemsBefore(es: seq<Json>, rest: string)
    ensures WriteElems(es, rest) == WriteElems(es, "") + rest
    decreases es
  {
    if es != [] {
      var w := WriteElems(es[1..], "");
      ElemsBefore(es[1..], rest);
      TextBefore(es[0], WriteElems(es[1..], rest));
      TextBefore(es[0], w);
      Regroup("," + Encode(es[0]), w, rest);
    }
  }

  function MemberText(v: Json, k: string): string
    requires v.Object? && k in v.fields
  {
    "\"" + Chars(k) + "\":" + Encode(v.fields[k])
  }

  lemma {:induction false} MemberBefore(v: Json, k: string, rest: string)
    requires v.Object? && k in v.fields
    ensures WriteString(k, [':'] + Write(v.fields[k], rest)) == MemberText(v, k) + rest
    decreases v, 0
  {
    TextBefore(v.fields[k], rest);
    StringBefore(k, [':'] + Write(v.fields[k], rest));
    var q := "\"" + Chars(k) + "\"";
    assert q + ([':'] + (Encode(v.fields[k]) + rest)) == q + ":" + Encode(v.fields[k]) + rest;
    assert q + ":" == "\"" + Chars(k) + "\":";
  }

  lemma {:induction false} MembersBefore(v: Json, ks: seq<string>, rest: string)
    requires v.Object? && forall k | k in ks :: k in v.fields
    ensures WriteMembers(v, ks, rest) == WriteMembers(v, ks, "") + rest
    decreases v, 1, |ks|
  {
    if ks != [] {
      assert ks[0] in ks;
      var w := WriteMembers(v, ks[1..], "");
      MembersBefore(v, ks[1..], rest);
      MemberBefore(v, ks[0], WriteMembers(v, ks[1..], rest));
      MemberBefore(v, ks[0], w);
      Regroup("," + MemberText(v, ks[0]), w, rest);
    }
  }

  lemma {:induction false} ElemsAreCommas(e: Json, es: seq<Json>)
    ensures Encode(e) + WriteElems(es, "") == Commas(Texts([e] + es)) + "]"
    decreases |es|
  {
    var all := Texts([e] + es);
    assert all[0] == Encode(e);
    if es != [] {
      TextBefore(es[0], WriteElems(es[1..], ""));
      ElemsAreCommas(es[0], es[1..]);
      assert [es[0]] + es[1..] == es && all[1..] == Texts(es);
      Regroup(Encode(e), ",", Commas(Texts(es)) + "]");
      Regroup(Encode(e) + ",", Commas(Texts(es)), "]");
    }
  }

  /** A list: the texts of its elements in brackets, with commas. */
  lemma {:induction false} ListText(es: seq<Json>)
    ensures Encode(Array(es)) == "[" + Commas(Texts(es)) + "]"
  {
    if es != [] {
      TextBefore(es[0], WriteElems(es[1..], ""));
      ElemsAreCommas(es[0], es[1..]);
      assert [es[0]] + es[1..] == es;
    }
  }

  function MemberTexts(v: Json, ks: seq<string>): seq<string>
    requires v.Object? && forall k | k in ks :: k in v.fields
  {
    seq(|ks|, i requires 0 <= i < |ks| => (assert ks[i] in ks; MemberText(v, ks[i])))
  }

  lemma {:induction false} MemberTextsTail(v: Json, ks: seq<string>)
    requires v.Object? && ks != [] && forall k | k in ks :: k in v.fields
    ensures ks[0] in ks && (forall k | k in ks[1..] :: k in v.fields)
    ensures MemberTexts(v, ks)[0] == MemberText(v, ks[0]) && MemberTexts(v, ks)[1..] == MemberTexts(v, ks[1..])
  {
    assert ks[0] in ks;
  }

  lemma {:induction false} MembersAreCommas(v: Json, ks: seq<string>)
    requires v.Object? && ks != [] && forall k | k in ks :: k in v.fields
    ensures ks[0] in ks && MemberText(v, ks[0]) + WriteMembers(v, ks[1..], "") == Commas(MemberTexts(v, ks)) + "}"
    decreases |ks|
  {
    MemberTextsTail(v, ks);
    if |ks| > 1 {
      var rest := ks[1..];
      assert rest[0] in rest;
      MemberBefore(v, rest[0], WriteMembers(v, rest[1..], ""));
      MembersAreCommas(v, rest);
      Regroup(MemberText(v, ks[0]), ",", Commas(MemberTexts(v, rest)) + "}");
      Regroup(MemberText(v, ks[0]) + ",", Commas(MemberTexts(v, rest)), "}");
    }
  }

  /** An object: its members in braces, with commas, in the order of their keys. */
  lemma {:induction false} ObjectText(m: map<string, Json>)
    ensures Encode(Object(m)) == "{" + Commas(MemberTexts(Object(m), SortedKeys(m.Keys))) + "}"
  {
    var v, ks := Object(m), SortedKeys(m.Keys);
    if ks != [] { WrittenMembers(v, ks); }
  }

  lemma {:induction false} WrittenMembers(v: Json, ks: seq<string>)
    requires v.Object? && ks != [] && forall k | k in ks :: k in v.fields
    ensures ks[0] in ks && (forall k | k in ks[1..] :: k in v.fields)
    ensures WriteString(ks[0], [':'] + Write(v.fields[ks[0]], WriteMembers(v, ks[1..], "")))
         == Commas(MemberTexts(v, ks)) + "}"
  {
    assert ks[0] in ks;
    MemberBefore(v, ks[0], WriteMembers(v, ks[1..], ""));
    MembersAreCommas(v, ks);
  }

  /** No character of these needs an escape. */
  predicate PlainText(s: string) {
    forall i | 0 <= i < |s| ::
      s[i] as int >= 0x20 && s[i] !in "\"\\<>&" && s[i] as int != 0x2028 && s[i] as int != 0x2029
  }

  /** A string: its characters in quotes, and those that need no escape as they are. */
  lemma {:induction false} StringText(s: string)
    ensures Encode(String(s)) == "\"" + Chars(s) + "\""
    ensures PlainText(s) ==> Chars(s) == s
  {
    StringBefore(s, "");
    if PlainText(s) { PlainChars(s); }
  }

  lemma {:induction false} PlainChars(s: string)
    requires PlainText(s)
    ensures Chars(s) == s
  {
    if s != [] {
      PlainChars(s[1..]);
      assert [s[0]] + s[1..] == s;
    }
  }
}
