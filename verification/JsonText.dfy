/** JSON values, their printed text, and restoring one against restoring the other
    (src/core/privacy.rs, `restore_json` and the JSON-escaping `RestoreStream`). */
module JsonText {
  import opened Bytes
  import opened TokenGrammar
  import opened TokenSearch
  import opened JsonString
  import opened StreamingRestore

  datatype Json =
    | Null
    | Bool(b: bool)
    | Num(numeral: Text)
    | Str(s: Text)
    | Arr(items: seq<Json>)
    | Obj(members: seq<Member>)

  datatype Member = Member(key: Text, value: Json)

  /** Numerals are printed from digits, signs, points and exponents: no `<` among them. */
  predicate Printable(j: Json) {
    match j
    case Num(t) => LT !in t
    case Arr(items) => forall i | 0 <= i < |items| :: Printable(items[i])
    case Obj(members) => forall i | 0 <= i < |members| :: Printable(members[i].value)
    case _ => true
  }

  // ----- the compact printer -----

  function PrintString(s: Text): Text { [QUOTE] + Escape(s) + [QUOTE] }

  function Print(j: Json): Text {
    match j
    case Null => Ascii("null")
    case Bool(b) => if b then Ascii("true") else Ascii("false")
    case Num(t) => t
    case Str(s) => PrintString(s)
    case Arr(items) => [LBRACKET] + PrintItems(items) + [RBRACKET]
    case Obj(members) => [LBRACE] + PrintMembers(members) + [RBRACE]
  }

  function PrintItems(items: seq<Json>): Text {
    if items == [] then []
    else Print(items[0]) + (if |items| == 1 then [] else [COMMA] + PrintItems(items[1..]))
  }

  function PrintMembers(members: seq<Member>): Text {
    if members == [] then []
    else PrintString(members[0].key) + [COLON] + Print(members[0].value)
         + (if |members| == 1 then [] else [COMMA] + PrintMembers(members[1..]))
  }

  // ----- restoring a value -----

  /** `restore_json`: every string value, no object key. */
  ghost function RestoreJson(v: map<Text, Text>, j: Json): Json
    requires AllShaped(v.Keys)
  {
    match j
    case Str(s) => Str(Restore(v, s))
    case Arr(items) => Arr(RestoreItems(v, items))
    case Obj(members) => Obj(RestoreMembers(v, members))
    case _ => j
  }

  ghost function RestoreItems(v: map<Text, Text>, items: seq<Json>): seq<Json>
    requires AllShaped(v.Keys)
  {
    if items == [] then [] else [RestoreJson(v, items[0])] + RestoreItems(v, items[1..])
  }

  ghost function RestoreMembers(v: map<Text, Text>, members: seq<Member>): seq<Member>
    requires AllShaped(v.Keys)
  {
    if members == [] then []
    else [Member(members[0].key, RestoreJson(v, members[0].value))] + RestoreMembers(v, members[1..])
  }

  /** What the raw-text channel restores: string values and object keys alike. */
  ghost function RestoreEverywhere(v: map<Text, Text>, j: Json): Json
    requires AllShaped(v.Keys)
  {
    match j
    case Str(s) => Str(Restore(v, s))
    case Arr(items) => Arr(EverywhereItems(v, items))
    case Obj(members) => Obj(EverywhereMembers(v, members))
    case _ => j
  }

  ghost function EverywhereItems(v: map<Text, Text>, items: seq<Json>): seq<Json>
    requires AllShaped(v.Keys)
  {
    if items == [] then [] else [RestoreEverywhere(v, items[0])] + EverywhereItems(v, items[1..])
  }

  ghost function EverywhereMembers(v: map<Text, Text>, members: seq<Member>): seq<Member>
    requires AllShaped(v.Keys)
  {
    if members == [] then []
    else [Member(Restore(v, members[0].key), RestoreEverywhere(v, members[0].value))]
         + EverywhereMembers(v, members[1..])
  }

  // ----- restoring the printed text -----

  lemma {:induction false} PlainPasses(w: map<Text, Text>, a: Text, x: Text)
    requires AllShaped(w.Keys) && LT !in a
    ensures Restore(w, a + x) == a + Restore(w, x)
  {
    hide Restore, Hit;
    forall i: nat | i < |a| ensures !Hit(w.Keys, a + x, i) {
      assert (a + x)[i] == a[i];
      OnlyLtStartsToken(w.Keys, a + x, i);
    }
    RestoreSkip(w, a + x, |a|);
    assert (a + x)[..|a|] == a && (a + x)[|a|..] == x;
  }

  predicate Separates(c: byte) { c != LT && c != GT && !IsNameByte(c) }

  lemma {:induction false} SeparatorKeepsHits(keys: set<Text>, a: Text, c: byte, x: Text)
    requires AllShaped(keys) && Separates(c)
    ensures Hit(keys, a + [c] + x, 0) <==> Hit(keys, a, 0)
  {
    forall k | k in keys ensures Occurs(k, a + [c] + x, 0) <==> Occurs(k, a, 0) {
      assert a + [c] + x == a + ([c] + x);
      OccursExtend(k, a, [c] + x, 0);
      if Occurs(k, a + [c] + x, 0) {
        OccurrenceBounds(k, a + [c] + x, 0);
        assert (a + [c] + x)[|a|] == c;
      }
    }
  }

  /** A byte no token contains splits the work: each side is restored on its own. */
  lemma {:induction false} SeparatorSplits(w: map<Text, Text>, a: Text, c: byte, x: Text)
    requires AllShaped(w.Keys) && Separates(c)
    ensures Restore(w, a + [c] + x) == Restore(w, a) + [c] + Restore(w, x)
    decreases |a|
  {
    hide Restore, Hit;
    var s := a + [c] + x;
    if a == [] {
      assert s == [c] + x;
      PlainPasses(w, [c], x);
      RestoreNothing(w, []) by { EmptyHasNoHits(w.Keys); }
      assert [] + [c] + Restore(w, x) == [c] + Restore(w, x);
    } else {
      SeparatorKeepsHits(w.Keys, a, c, x);
      if Hit(w.Keys, a, 0) {
        var k := HitKey(w.Keys, a, 0);
        OccursExtend(k, a, [c] + x, 0);
        assert s == a + ([c] + x);
        FirstToken(w, a, k);
        FirstToken(w, s, k);
        assert s[|k|..] == a[|k|..] + [c] + x;
        SeparatorSplits(w, a[|k|..], c, x);
        var mid := Restore(w, a[|k|..]);
        assert w[k] + (mid + [c] + Restore(w, x)) == w[k] + mid + [c] + Restore(w, x);
      } else {
        FirstByte(w, a);
        FirstByte(w, s);
        assert s[1..] == a[1..] + [c] + x;
        SeparatorSplits(w, a[1..], c, x);
        var mid := Restore(w, a[1..]);
        assert [a[0]] + (mid + [c] + Restore(w, x)) == [a[0]] + mid + [c] + Restore(w, x);
      }
    }
  }

  lemma {:induction false} FirstToken(w: map<Text, Text>, s: Text, k: Text)
    requires AllShaped(w.Keys) && k in w && Occurs(k, s, 0)
    ensures Restore(w, s) == w[k] + Restore(w, s[|k|..])
  {
    hide Restore;
    RestoreAt(w, s, 0, k);
    assert s[..0] + w[k] == w[k];
  }

  lemma {:induction false} FirstByte(w: map<Text, Text>, s: Text)
    requires AllShaped(w.Keys) && s != [] && !Hit(w.Keys, s, 0)
    ensures Restore(w, s) == [s[0]] + Restore(w, s[1..])
  {
  }

  lemma {:induction false} StringPasses(v: map<Text, Text>, s: Text, x: Text)
    requires AllShaped(v.Keys)
    ensures AllShaped(EscapedOriginals(v).Keys)
    ensures var w := EscapedOriginals(v);
            Restore(w, PrintString(s) + x) == PrintString(Restore(v, s)) + Restore(w, x)
  {
    hide Restore, Escape;
    var w := EscapedOriginals(v);
    EscapeCommutes(v, s);
    assert PrintString(s) + x == [QUOTE] + (Escape(s) + [QUOTE] + x);
    PlainPasses(w, [QUOTE], Escape(s) + [QUOTE] + x);
    SeparatorSplits(w, Escape(s), QUOTE, x);
    var e := Escape(Restore(v, s));
    assert [QUOTE] + (e + [QUOTE] + Restore(w, x)) == [QUOTE] + e + [QUOTE] + Restore(w, x);
  }

  /** No token straddles the end of a printed value, so a printed value restores in context as
      it does alone. */
  lemma {:induction false} ValuePasses(v: map<Text, Text>, j: Json, x: Text)
    requires AllShaped(v.Keys) && Printable(j)
    ensures AllShaped(EscapedOriginals(v).Keys)
    ensures Restore(EscapedOriginals(v), Print(j) + x)
            == Print(RestoreEverywhere(v, j)) + Restore(EscapedOriginals(v), x)
    decreases j, 0
  {
    hide Restore, Escape, PrintString, PrintItems, PrintMembers, EverywhereItems, EverywhereMembers;
    var w := EscapedOriginals(v);
    match j {
      case Str(s) => StringPasses(v, s, x);
      case Arr(items) =>
        var body, body' := PrintItems(items), PrintItems(EverywhereItems(v, items));
        Bracketed(w, LBRACKET, body, RBRACKET, x, body') by {
          ItemsPass(v, items, [RBRACKET] + x);
          PlainPasses(w, [RBRACKET], x);
        }
      case Obj(members) =>
        var body, body' := PrintMembers(members), PrintMembers(EverywhereMembers(v, members));
        Bracketed(w, LBRACE, body, RBRACE, x, body') by {
          MembersPass(v, members, [RBRACE] + x);
          PlainPasses(w, [RBRACE], x);
        }
      case _ => PlainPasses(w, Print(j), x);
    }
  }

  lemma {:induction false} Bracketed(w: map<Text, Text>, l: byte, body: Text, r: byte, x: Text, body': Text)
    requires AllShaped(w.Keys) && l != LT
    requires Restore(w, body + ([r] + x)) == body' + ([r] + Restore(w, x))
    ensures Restore(w, [l] + body + [r] + x) == [l] + body' + [r] + Restore(w, x)
  {
    hide Restore;
    assert [l] + body + [r] + x == [l] + (body + ([r] + x));
    PlainPasses(w, [l], body + ([r] + x));
    assert [l] + (body' + ([r] + Restore(w, x))) == [l] + body' + [r] + Restore(w, x);
  }

  lemma {:induction false} ItemsPass(v: map<Text, Text>, items: seq<Json>, x: Text)
    requires AllShaped(v.Keys) && forall i | 0 <= i < |items| :: Printable(items[i])
    ensures AllShaped(EscapedOriginals(v).Keys)
    ensures Restore(EscapedOriginals(v), PrintItems(items) + x)
            == PrintItems(EverywhereItems(v, items)) + Restore(EscapedOriginals(v), x)
    decreases items, 1
  {
    hide Restore, Print, RestoreEverywhere;
    var w := EscapedOriginals(v);
    if items == [] {
      assert [] + x == x && [] + Restore(w, x) == Restore(w, x);
    } else {
      var first, rest := Print(items[0]), items[1..];
      var rest' := EverywhereItems(v, rest);
      EverywhereItemsLength(v, items);
      if |items| == 1 {
        ValuePasses(v, items[0], x);
        assert first + [] == first;
        assert EverywhereItems(v, items) == [RestoreEverywhere(v, items[0])];
        var p := Print(RestoreEverywhere(v, items[0]));
        assert p + [] == p;
      } else {
        var tail := [COMMA] + (PrintItems(rest) + x);
        Assoc([COMMA], PrintItems(rest), x);
        Assoc(first, [COMMA] + PrintItems(rest), x);
        ValuePasses(v, items[0], tail);
        PlainPasses(w, [COMMA], PrintItems(rest) + x);
        ItemsPass(v, rest, x);
        assert EverywhereItems(v, items)[1..] == rest';
        var p, q := Print(RestoreEverywhere(v, items[0])), PrintItems(rest');
        Assoc([COMMA], q, Restore(w, x));
        Assoc(p, [COMMA] + q, Restore(w, x));
      }
    }
  }

  lemma {:induction false} EverywhereItemsLength(v: map<Text, Text>, items: seq<Json>)
    requires AllShaped(v.Keys)
    ensures |EverywhereItems(v, items)| == |items|
  {
    if items != [] {
      EverywhereItemsLength(v, items[1..]);
    }
  }

  lemma {:induction false} EverywhereMembersLength(v: map<Text, Text>, members: seq<Member>)
    requires AllShaped(v.Keys)
    ensures |EverywhereMembers(v, members)| == |members|
  {
    if members != [] {
      EverywhereMembersLength(v, members[1..]);
    }
  }

  /** One `"key":value`, and what follows it. */
  lemma {:induction false} MemberPasses(v: map<Text, Text>, m: Member, x: Text)
    requires AllShaped(v.Keys) && Printable(m.value)
    ensures AllShaped(EscapedOriginals(v).Keys)
    ensures var w := EscapedOriginals(v);
            Restore(w, PrintString(m.key) + [COLON] + Print(m.value) + x)
            == PrintString(Restore(v, m.key)) + [COLON] + Print(RestoreEverywhere(v, m.value)) + Restore(w, x)
    decreases m, 1
  {
    hide Restore, Print, RestoreEverywhere, PrintString;
    var w := EscapedOriginals(v);
    var k, p := PrintString(m.key), Print(m.value);
    var k', p' := PrintString(Restore(v, m.key)), Print(RestoreEverywhere(v, m.value));
    assert k + [COLON] + p + x == k + ([COLON] + (p + x));
    StringPasses(v, m.key, [COLON] + (p + x));
    PlainPasses(w, [COLON], p + x);
    ValuePasses(v, m.value, x);
    assert k' + ([COLON] + (p' + Restore(w, x))) == k' + [COLON] + p' + Restore(w, x);
  }

  lemma {:induction false} MembersPass(v: map<Text, Text>, members: seq<Member>, x: Text)
    requires AllShaped(v.Keys) && forall i | 0 <= i < |members| :: Printable(members[i].value)
    ensures AllShaped(EscapedOriginals(v).Keys)
    ensures Restore(EscapedOriginals(v), PrintMembers(members) + x)
            == PrintMembers(EverywhereMembers(v, members)) + Restore(EscapedOriginals(v), x)
    decreases members, 1
  {
    hide Restore, Print, RestoreEverywhere, PrintString;
    var w := EscapedOriginals(v);
    if members == [] {
      assert [] + x == x && [] + Restore(w, x) == Restore(w, x);
    } else {
      var m, rest := members[0], members[1..];
      var head := PrintString(m.key) + [COLON] + Print(m.value);
      var head' := PrintString(Restore(v, m.key)) + [COLON] + Print(RestoreEverywhere(v, m.value));
      EverywhereMembersLength(v, members);
      assert EverywhereMembers(v, members)[1..] == EverywhereMembers(v, rest);
      if |members| == 1 {
        MemberPasses(v, m, x);
        assert head + [] == head && head' + [] == head';
      } else {
        var q := PrintMembers(EverywhereMembers(v, rest));
        Assoc([COMMA], PrintMembers(rest), x);
        Assoc(head, [COMMA] + PrintMembers(rest), x);
        MemberPasses(v, m, [COMMA] + (PrintMembers(rest) + x));
        PlainPasses(w, [COMMA], PrintMembers(rest) + x);
        MembersPass(v, rest, x);
        Assoc([COMMA], q, Restore(w, x));
        Assoc(head', [COMMA] + q, Restore(w, x));
      }
    }
  }

  // ----- when the two paths agree -----

  /** Restoring leaves every object key as it is: in particular when no key holds a token. */
  ghost predicate KeysFixed(v: map<Text, Text>, j: Json)
    requires AllShaped(v.Keys)
  {
    match j
    case Arr(items) => forall i | 0 <= i < |items| :: KeysFixed(v, items[i])
    case Obj(members) =>
      forall i | 0 <= i < |members| ::
        Restore(v, members[i].key) == members[i].key && KeysFixed(v, members[i].value)
    case _ => true
  }

  lemma {:induction false} KeysFixedIsAgreement(v: map<Text, Text>, j: Json)
    requires AllShaped(v.Keys)
    ensures KeysFixed(v, j) <==> RestoreEverywhere(v, j) == RestoreJson(v, j)
    decreases j, 0
  {
    hide Restore;
    match j {
      case Arr(items) => ItemsFixed(v, items);
      case Obj(members) => MembersFixed(v, members);
      case _ =>
    }
  }

  lemma {:induction false} ItemsFixed(v: map<Text, Text>, items: seq<Json>)
    requires AllShaped(v.Keys)
    ensures (forall i | 0 <= i < |items| :: KeysFixed(v, items[i]))
            <==> EverywhereItems(v, items) == RestoreItems(v, items)
    decreases items, 1
  {
    hide Restore, KeysFixed, RestoreEverywhere, RestoreJson;
    if items != [] {
      var rest := items[1..];
      KeysFixedIsAgreement(v, items[0]);
      ItemsFixed(v, rest);
      assert (forall i | 0 <= i < |items| :: KeysFixed(v, items[i]))
        <==> KeysFixed(v, items[0]) && forall i | 0 <= i < |rest| :: KeysFixed(v, rest[i]) by {
        assert forall i | 1 <= i < |items| :: items[i] == rest[i - 1];
      }
      var a, b := EverywhereItems(v, items), RestoreItems(v, items);
      assert a[1..] == EverywhereItems(v, rest) && b[1..] == RestoreItems(v, rest);
    }
  }

  lemma {:induction false} MembersFixed(v: map<Text, Text>, members: seq<Member>)
    requires AllShaped(v.Keys)
    ensures (forall i | 0 <= i < |members| ::
               Restore(v, members[i].key) == members[i].key && KeysFixed(v, members[i].value))
            <==> EverywhereMembers(v, members) == RestoreMembers(v, members)
    decreases members, 1
  {
    hide Restore, KeysFixed, RestoreEverywhere, RestoreJson;
    if members != [] {
      var rest := members[1..];
      KeysFixedIsAgreement(v, members[0].value);
      MembersFixed(v, rest);
      assert forall i | 1 <= i < |members| :: members[i] == rest[i - 1];
      assert forall i | 0 <= i < |rest| :: rest[i] == members[i + 1];
      var a, b := EverywhereMembers(v, members), RestoreMembers(v, members);
      assert a[1..] == EverywhereMembers(v, rest) && b[1..] == RestoreMembers(v, rest);
    }
  }

  lemma {:induction false} EscapedByteTells(p: byte, q: byte, s: Text, t: Text)
    requires EscapeByte(p) + s == EscapeByte(q) + t
    ensures p == q && s == t
  {
    var a, b := EscapeByte(p) + s, EscapeByte(q) + t;
    assert a[0] == b[0];
    if MustEscape(p) && MustEscape(q) {
      assert a[1] == b[1];
      if a[1] == 117 {
        assert a[4] == b[4] && a[5] == b[5];
        assert p == 16 * (p / 16) + p % 16 && q == 16 * (q / 16) + q % 16;
      }
    }
    assert p == q;
    assert s == a[|EscapeByte(p)|..] && t == b[|EscapeByte(p)|..];
  }

  /** A printed string tells its contents and where it ends. */
  lemma {:induction false} EscapeTells(a: Text, b: Text, x: Text, y: Text)
    requires Escape(a) + [QUOTE] + x == Escape(b) + [QUOTE] + y
    ensures a == b && x == y
    decreases |a|
  {
    hide Escape, EscapeByte;
    EscapeUnfold(a);
    EscapeUnfold(b);
    var l, r := Escape(a) + [QUOTE] + x, Escape(b) + [QUOTE] + y;
    assert l[0] == r[0];
    if a == [] {
      assert b == [];
      assert l[1..] == x && r[1..] == y;
    } else {
      assert b != [];
      var ta, tb := Escape(a[1..]) + [QUOTE] + x, Escape(b[1..]) + [QUOTE] + y;
      assert l == EscapeByte(a[0]) + ta && r == EscapeByte(b[0]) + tb;
      EscapedByteTells(a[0], b[0], ta, tb);
      EscapeTells(a[1..], b[1..], x, y);
      assert a == [a[0]] + a[1..] && b == [b[0]] + b[1..];
    }
  }

  /** Printed text determines the keys: two restorings of one value that print alike are alike. */
  lemma {:induction false} PrintTells(v: map<Text, Text>, j: Json, x: Text, y: Text)
    requires AllShaped(v.Keys)
    requires Print(RestoreEverywhere(v, j)) + x == Print(RestoreJson(v, j)) + y
    ensures RestoreEverywhere(v, j) == RestoreJson(v, j) && x == y
    decreases j, 0
  {
    hide Restore, PrintString, PrintItems, PrintMembers;
    match j {
      case Arr(items) =>
        var a, b := EverywhereItems(v, items), RestoreItems(v, items);
        Unbracket(LBRACKET, PrintItems(a), RBRACKET, x, PrintItems(b), y);
        ItemsTell(v, items, [RBRACKET] + x, [RBRACKET] + y);
        TailTells(RBRACKET, x, y);
      case Obj(members) =>
        var a, b := EverywhereMembers(v, members), RestoreMembers(v, members);
        Unbracket(LBRACE, PrintMembers(a), RBRACE, x, PrintMembers(b), y);
        MembersTell(v, members, [RBRACE] + x, [RBRACE] + y);
        TailTells(RBRACE, x, y);
      case _ =>
        SamePrefix(Print(RestoreJson(v, j)), x, y);
    }
  }

  lemma {:induction false} SamePrefix(p: Text, x: Text, y: Text)
    requires p + x == p + y
    ensures x == y
  {
    assert x == (p + x)[|p|..] && y == (p + y)[|p|..];
  }

  lemma {:induction false} TailTells(c: byte, x: Text, y: Text)
    requires [c] + x == [c] + y
    ensures x == y
  {
    SamePrefix([c], x, y);
  }

  lemma {:induction false} Unbracket(l: byte, a: Text, r: byte, x: Text, b: Text, y: Text)
    requires [l] + a + [r] + x == [l] + b + [r] + y
    ensures a + ([r] + x) == b + ([r] + y)
  {
    assert [l] + a + [r] + x == [l] + (a + ([r] + x));
    assert [l] + b + [r] + y == [l] + (b + ([r] + y));
    SamePrefix([l], a + ([r] + x), b + ([r] + y));
  }

  lemma {:induction false} ItemsTell(v: map<Text, Text>, items: seq<Json>, x: Text, y: Text)
    requires AllShaped(v.Keys)
    requires PrintItems(EverywhereItems(v, items)) + x == PrintItems(RestoreItems(v, items)) + y
    ensures EverywhereItems(v, items) == RestoreItems(v, items) && x == y
    decreases items, 1
  {
    hide Restore, Print, RestoreEverywhere, RestoreJson;
    var a, b := EverywhereItems(v, items), RestoreItems(v, items);
    EverywhereItemsLength(v, items);
    RestoreItemsLength(v, items);
    if items == [] {
      SamePrefix([], x, y);
    } else {
      var pa, pb := Print(a[0]), Print(b[0]);
      assert a[1..] == EverywhereItems(v, items[1..]) && b[1..] == RestoreItems(v, items[1..]);
      if |items| == 1 {
        assert pa + [] == pa && pb + [] == pb;
        PrintTells(v, items[0], x, y);
      } else {
        var ta, tb := [COMMA] + (PrintItems(a[1..]) + x), [COMMA] + (PrintItems(b[1..]) + y);
        assert PrintItems(a) + x == pa + ta && PrintItems(b) + y == pb + tb;
        PrintTells(v, items[0], ta, tb);
        TailTells(COMMA, PrintItems(a[1..]) + x, PrintItems(b[1..]) + y);
        ItemsTell(v, items[1..], x, y);
      }
    }
  }

  lemma {:induction false} RestoreItemsLength(v: map<Text, Text>, items: seq<Json>)
    requires AllShaped(v.Keys)
    ensures |RestoreItems(v, items)| == |items|
  {
    if items != [] {
      RestoreItemsLength(v, items[1..]);
    }
  }

  lemma {:induction false} RestoreMembersLength(v: map<Text, Text>, members: seq<Member>)
    requires AllShaped(v.Keys)
    ensures |RestoreMembers(v, members)| == |members|
  {
    if members != [] {
      RestoreMembersLength(v, members[1..]);
    }
  }

  lemma {:induction false} MemberTells(v: map<Text, Text>, m: Member, x: Text, y: Text)
    requires AllShaped(v.Keys)
    requires PrintString(Restore(v, m.key)) + [COLON] + Print(RestoreEverywhere(v, m.value)) + x
             == PrintString(m.key) + [COLON] + Print(RestoreJson(v, m.value)) + y
    ensures Restore(v, m.key) == m.key && RestoreEverywhere(v, m.value) == RestoreJson(v, m.value) && x == y
    decreases m, 1
  {
    hide Restore, Print, RestoreEverywhere, RestoreJson, Escape;
    var k := Restore(v, m.key);
    var a, b := Print(RestoreEverywhere(v, m.value)) + x, Print(RestoreJson(v, m.value)) + y;
    var la, lb := Escape(k) + [QUOTE] + ([COLON] + a), Escape(m.key) + [QUOTE] + ([COLON] + b);
    assert PrintString(k) + [COLON] + Print(RestoreEverywhere(v, m.value)) + x == [QUOTE] + la;
    assert PrintString(m.key) + [COLON] + Print(RestoreJson(v, m.value)) + y == [QUOTE] + lb;
    TailTells(QUOTE, la, lb);
    EscapeTells(k, m.key, [COLON] + a, [COLON] + b);
    TailTells(COLON, a, b);
    PrintTells(v, m.value, x, y);
  }

  lemma {:induction false} MembersTell(v: map<Text, Text>, members: seq<Member>, x: Text, y: Text)
    requires AllShaped(v.Keys)
    requires PrintMembers(EverywhereMembers(v, members)) + x == PrintMembers(RestoreMembers(v, members)) + y
    ensures EverywhereMembers(v, members) == RestoreMembers(v, members) && x == y
    decreases members, 1
  {
    hide Restore, Print, RestoreEverywhere, RestoreJson, PrintString;
    var a, b := EverywhereMembers(v, members), RestoreMembers(v, members);
    EverywhereMembersLength(v, members);
    RestoreMembersLength(v, members);
    if members == [] {
      SamePrefix([], x, y);
    } else {
      var ha := PrintString(a[0].key) + [COLON] + Print(a[0].value);
      var hb := PrintString(b[0].key) + [COLON] + Print(b[0].value);
      assert a[1..] == EverywhereMembers(v, members[1..]) && b[1..] == RestoreMembers(v, members[1..]);
      if |members| == 1 {
        assert ha + [] == ha && hb + [] == hb;
        MemberTells(v, members[0], x, y);
      } else {
        var ta, tb := [COMMA] + (PrintMembers(a[1..]) + x), [COMMA] + (PrintMembers(b[1..]) + y);
        assert PrintMembers(a) + x == ha + ta && PrintMembers(b) + y == hb + tb;
        MemberTells(v, members[0], ta, tb);
        TailTells(COMMA, PrintMembers(a[1..]) + x, PrintMembers(b[1..]) + y);
        MembersTell(v, members[1..], x, y);
      }
    }
  }

  /** The streamed tool-argument channel agrees with the non-streaming path, for every JSON value
      and every way of fragmenting its printed text, exactly when restoring leaves every object
      key alone; and whatever the keys, the channel restores every string of the value, keys included. */
  lemma {:induction false} ToolArgumentsAgree(v: map<Text, Text>, m: nat, j: Json, fragments: seq<Text>)
    requires AllShaped(v.Keys) && m >= 1 && (forall k | k in v.Keys :: |k| <= m)
    requires Printable(j) && Concat(fragments) == Print(j)
    ensures AllShaped(EscapedOriginals(v).Keys)
    ensures var (o, held) := FeedAll(EscapedOriginals(v), m, [], fragments);
            && o + held == Print(RestoreEverywhere(v, j))
            && (o + held == Print(RestoreJson(v, j)) <==> KeysFixed(v, j))
  {
    hide Restore, Print, RestoreEverywhere, RestoreJson, FeedAll, KeysFixed, Printable;
    var w := EscapedOriginals(v);
    StreamRefinesOneShot(w, m, fragments);
    ValuePasses(v, j, []);
    RestoreNothing(w, []) by { EmptyHasNoHits(w.Keys); }
    var all, some := Print(RestoreEverywhere(v, j)), Print(RestoreJson(v, j));
    assert Print(j) + [] == Print(j) && all + [] == all && some + [] == some;
    KeysFixedIsAgreement(v, j);
    if all == some {
      PrintTells(v, j, [], []);
    }
  }

  /** No object key of the value holds a vault token. */
  ghost predicate KeysClean(v: map<Text, Text>, j: Json) {
    match j
    case Arr(items) => forall i | 0 <= i < |items| :: KeysClean(v, items[i])
    case Obj(members) =>
      forall i | 0 <= i < |members| :: NoHits(v.Keys, members[i].key) && KeysClean(v, members[i].value)
    case _ => true
  }

  /** In particular the two paths agree on every value whose keys hold no vault token. */
  lemma {:induction false} CleanKeysAreFixed(v: map<Text, Text>, j: Json)
    requires AllShaped(v.Keys) && KeysClean(v, j)
    ensures KeysFixed(v, j)
  {
    hide Restore, NoHits, AllShaped;
    match j {
      case Arr(items) =>
        forall i | 0 <= i < |items| ensures KeysFixed(v, items[i]) {
          CleanKeysAreFixed(v, items[i]);
        }
      case Obj(members) =>
        forall i | 0 <= i < |members|
          ensures Restore(v, members[i].key) == members[i].key && KeysFixed(v, members[i].value)
        {
          RestoreNothing(v, members[i].key);
          CleanKeysAreFixed(v, members[i].value);
        }
      case _ =>
    }
  }

  /** An object keyed by a vault token is a value on which the two paths differ, however its text is
      fragmented. */
  lemma {:induction false} TokenKeyDisagrees(v: map<Text, Text>, m: nat, t: Text, fragments: seq<Text>)
    requires AllShaped(v.Keys) && m >= 1 && (forall k | k in v.Keys :: |k| <= m) && t in v && v[t] != t
    requires Concat(fragments) == Print(Obj([Member(t, Null)]))
    ensures AllShaped(EscapedOriginals(v).Keys)
    ensures var (o, held) := FeedAll(EscapedOriginals(v), m, [], fragments);
            o + held != Print(RestoreJson(v, Obj([Member(t, Null)])))
  {
    hide Restore, Print, FeedAll, RestoreJson;
    var ms := [Member(t, Null)];
    FirstToken(v, t, t);
    RestoreNothing(v, []) by { EmptyHasNoHits(v.Keys); }
    assert t[|t|..] == [] && v[t] + [] == v[t];
    assert Restore(v, ms[0].key) != ms[0].key;
    ToolArgumentsAgree(v, m, Obj(ms), fragments);
  }
}
