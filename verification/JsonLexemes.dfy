/** JSON texts however they are spelled: white space anywhere, any character escaped or not
    (section 7 of RFC 8259), and what the JSON-escaping `RestoreStream` makes of them
    (src/core/privacy.rs, `feed` with `json_escape`). */
module JsonLexemes {
  import opened Bytes
  import opened TokenGrammar
  import opened TokenSearch
  import opened JsonString
  import opened JsonText
  import opened JsonGrammar
  import opened JsonReader
  import opened StreamingRestore

  // ----- spelled strings -----

  /** The bytes `k` stand as they are at `q`. */
  predicate RawAt(chs: seq<Ch>, q: nat, k: Text) {
    q + |k| <= |chs| && forall i | 0 <= i < |k| :: chs[q + i] == Raw(k[i])
  }

  lemma {:induction false} RawRun(chs: seq<Ch>, k: Text)
    requires RawAt(chs, 0, k)
    ensures Written(chs) == k + Written(chs[|k|..]) && Means(chs) == k + Means(chs[|k|..])
  {
    if k == [] {
      assert chs[0..] == chs;
    } else {
      assert chs[0] == Raw(k[0]);
      forall i | 0 <= i < |k[1..]| ensures chs[1..][i] == Raw(k[1..][i]) {
        assert chs[i + 1] == Raw(k[i + 1]);
      }
      RawRun(chs[1..], k[1..]);
      assert chs[1..][|k[1..]|..] == chs[|k|..] && k == [k[0]] + k[1..];
      Assoc([k[0]], k[1..], Written(chs[|k|..]));
      Assoc([k[0]], k[1..], Means(chs[|k|..]));
    }
  }

  /** Bytes that need no escape are seen in a spelled string only where they stand as they are. */
  lemma {:induction false} SeenIsRaw(chs: seq<Ch>, k: Text)
    requires ChsOk(chs) && NeedsNoEscape(k) && k <= Written(chs)
    ensures RawAt(chs, 0, k)
  {
    if k != [] {
      FirstIsRaw(chs, k);
      SeenIsRaw(chs[1..], k[1..]);
      forall i | 0 <= i < |k| ensures chs[i] == Raw(k[i]) {
        if i > 0 {
          assert chs[1..][i - 1] == Raw(k[1..][i - 1]);
        }
      }
    }
  }

  lemma {:induction false} FirstIsRaw(chs: seq<Ch>, k: Text)
    requires ChsOk(chs) && NeedsNoEscape(k) && k <= Written(chs) && k != []
    ensures chs != [] && chs[0] == Raw(k[0]) && k[1..] <= Written(chs[1..])
  {
    hide EscapeMeans;
    assert ChOk(chs[0]) && !MustEscape(k[0]);
    MeansSomething(chs[0]);
    assert Written(chs)[0] == WrittenOne(chs[0])[0];
    assert Written(chs)[1..] == Written(chs[1..]);
  }

  /** Every token of the string's meaning is spelled without escapes. */
  ghost predicate TokensRaw(keys: set<Text>, chs: seq<Ch>) {
    forall k, p: nat | k in keys && Occurs(k, Means(chs), p) ::
      exists q: nat :: q <= |chs| && |Means(chs[..q])| == p && RawAt(chs, q, k)
  }

  lemma {:induction false} MeansSomething(c: Ch)
    requires ChOk(c)
    ensures MeansOne(c) != [] && WrittenOne(c) != [] && (c.Esc? ==> c.written[0] == BACKSLASH)
  {
    hide EscapeMeans;
    if c.Esc? {
      EscapeSizes(c.written);
    }
  }

  lemma {:induction false} MeansGrow(chs: seq<Ch>, q: nat, n: nat)
    requires ChsOk(chs) && q < n <= |chs|
    ensures |Means(chs[..q])| < |Means(chs[..n])|
  {
    var mid := chs[q..n];
    assert chs[..n] == chs[..q] + mid;
    SpellingConcat(chs[..q], mid);
    assert mid[0] == chs[q] && ChOk(chs[q]);
    MeansSomething(chs[q]);
  }

  lemma {:induction false} TokensRawSuffix(keys: set<Text>, chs: seq<Ch>, n: nat)
    requires ChsOk(chs) && n <= |chs| && TokensRaw(keys, chs)
    ensures TokensRaw(keys, chs[n..])
  {
    hide Means, Occurs, RawAt;
    var front, rest := chs[..n], chs[n..];
    assert chs == front + rest;
    SpellingConcat(front, rest);
    var m := |Means(front)|;
    forall k, p: nat | k in keys && Occurs(k, Means(rest), p)
      ensures exists q: nat :: q <= |rest| && |Means(rest[..q])| == p && RawAt(rest, q, k)
    {
      assert Means(chs)[m..] == Means(rest);
      OccursShift(k, Means(chs), m, p);
      var q: nat :| q <= |chs| && |Means(chs[..q])| == m + p && RawAt(chs, q, k);
      if q < n {
        MeansGrow(chs, q, n);
        assert false;
      }
      assert chs[..q] == front + rest[..q - n];
      SpellingConcat(front, rest[..q - n]);
      RawSuffix(chs, n, q, k);
    }
  }

  lemma {:induction false} RawSuffix(chs: seq<Ch>, n: nat, q: nat, k: Text)
    requires n <= q <= |chs| && RawAt(chs, q, k)
    ensures RawAt(chs[n..], q - n, k)
  {
    forall i | 0 <= i < |k| ensures chs[n..][q - n + i] == Raw(k[i]) {
      assert chs[q + i] == Raw(k[i]);
    }
  }

  /** A token at the very start is spelled by the first characters. */
  lemma {:induction false} FirstTokenIsRaw(keys: set<Text>, chs: seq<Ch>, k: Text)
    requires ChsOk(chs) && TokensRaw(keys, chs) && k in keys && Occurs(k, Means(chs), 0)
    ensures RawAt(chs, 0, k)
  {
    hide Means, Occurs, RawAt;
    var q: nat :| q <= |chs| && |Means(chs[..q])| == 0 && RawAt(chs, q, k);
    if q > 0 {
      MeansGrow(chs, 0, q);
      assert false;
    }
  }

  /** No token starts within what an escape stands for. */
  lemma {:induction false} EscapeStartsNoToken(keys: set<Text>, chs: seq<Ch>, i: nat)
    requires AllShaped(keys) && ChsOk(chs) && TokensRaw(keys, chs) && chs != [] && chs[0].Esc? && i < |chs[0].means|
    ensures !Hit(keys, Means(chs), i)
  {
    if Hit(keys, Means(chs), i) {
      var k := HitKey(keys, Means(chs), i);
      var q: nat :| q <= |chs| && |Means(chs[..q])| == i && RawAt(chs, q, k);
      RawComesAfterEscape(chs, k, q);
      assert false;
    }
  }

  lemma {:induction false} RawComesAfterEscape(chs: seq<Ch>, k: Text, q: nat)
    requires ChsOk(chs) && chs != [] && chs[0].Esc? && Shaped(k) && q <= |chs| && RawAt(chs, q, k)
    ensures |Means(chs[..q])| >= |chs[0].means|
  {
    assert chs[..1] == [chs[0]] && [chs[0]][1..] == [];
    assert Means(chs[..1]) == chs[0].means + [];
    assert chs[q + 0] == Raw(k[0]);
    if q > 1 {
      MeansGrow(chs, 1, q);
    }
  }

  // ----- one string through the stream -----

  /** The printed spelling of a text. */
  function Canonical(s: Text): seq<Ch> {
    if s == [] then []
    else [if MustEscape(s[0]) then Esc(EscapeByte(s[0]), [s[0]]) else Raw(s[0])] + Canonical(s[1..])
  }

  lemma {:induction false} CanonicalSpells(s: Text)
    ensures ChsOk(Canonical(s)) && Written(Canonical(s)) == Escape(s) && Means(Canonical(s)) == s
  {
    if s != [] {
      hide EscapeMeans, EscapeByte, Written, Means;
      CanonicalSpells(s[1..]);
      if MustEscape(s[0]) {
        PrintedEscape(s[0]);
      }
      var c := if MustEscape(s[0]) then Esc(EscapeByte(s[0]), [s[0]]) else Raw(s[0]);
      SpelledCons(c, Canonical(s[1..]));
      assert s == [s[0]] + s[1..];
      assert WrittenOne(c) == EscapeByte(s[0]) && MeansOne(c) == [s[0]];
    }
  }

  lemma {:induction false} EscapeHasNoLt(t: Text)
    requires EscapeMeans(t).Some?
    ensures LT !in t
  {
    if |t| == 6 {
      UnitHasNoLt(t);
    } else if |t| == 12 {
      UnitHasNoLt(t[..6]);
      UnitHasNoLt(t[6..]);
      assert t == t[..6] + t[6..];
    }
  }

  lemma {:induction false} UnitHasNoLt(t: Text)
    requires |t| == 6 && CodeUnit(t).Some?
    ensures LT !in t
  {
    HexHasNoLt(t[2..]);
    assert t == t[..2] + t[2..];
  }

  lemma {:induction false} HexHasNoLt(t: Text)
    requires HexDigits(t).Some?
    ensures LT !in t
  {
    if t != [] {
      HexHasNoLt(t[..|t| - 1]);
      assert t == t[..|t| - 1] + [t[|t| - 1]];
    }
  }

  /** A string whose tokens are spelled without escapes: what the stream makes of its spelling is a
      spelling of the restored string. */
  lemma {:induction false} StringMends(v: map<Text, Text>, chs: seq<Ch>) returns (out: seq<Ch>)
    requires AllShaped(v.Keys) && ChsOk(chs) && TokensRaw(v.Keys, chs)
    ensures ChsOk(out) && AllShaped(EscapedOriginals(v).Keys)
    ensures Written(out) == Restore(EscapedOriginals(v), Written(chs)) && Means(out) == Restore(v, Means(chs))
    decreases |chs|
  {
    hide Restore, Hit, Occurs, TokensRaw, RawAt, Written, Means, MeansOne, WrittenOne, EscapeMeans;
    var w := EscapedOriginals(v);
    assert w.Keys == v.Keys;
    if chs == [] {
      NothingSpelled(v);
      out := [];
    } else {
      FirstSpelled(chs);
      if chs[0].Esc? {
        TokensRawSuffix(v.Keys, chs, 1);
        var rest := StringMends(v, chs[1..]);
        out := [chs[0]] + rest;
        EscapeMends(v, chs);
        SpelledCons(chs[0], rest);
      } else if Hit(v.Keys, Means(chs), 0) {
        var k := HitKey(v.Keys, Means(chs), 0);
        FirstTokenIsRaw(v.Keys, chs, k);
        RawInside(chs, k);
        TokensRawSuffix(v.Keys, chs, |k|);
        var rest := StringMends(v, chs[|k|..]);
        CanonicalSpells(v[k]);
        out := Canonical(v[k]) + rest;
        SpellingConcat(Canonical(v[k]), rest);
        TokenMends(v, chs, k);
      } else {
        TokensRawSuffix(v.Keys, chs, 1);
        var rest := StringMends(v, chs[1..]);
        out := [chs[0]] + rest;
        ByteMends(v, chs);
        SpelledCons(chs[0], rest);
      }
    }
  }

  lemma {:induction false} RawInside(chs: seq<Ch>, k: Text)
    requires RawAt(chs, 0, k)
    ensures |k| <= |chs|
  {
  }

  lemma {:induction false} NothingSpelled(v: map<Text, Text>)
    requires AllShaped(v.Keys)
    ensures AllShaped(EscapedOriginals(v).Keys) && Written([]) == [] && Means([]) == []
    ensures Restore(v, []) == [] && Restore(EscapedOriginals(v), []) == []
  {
  }

  lemma {:induction false} FirstSpelled(chs: seq<Ch>)
    requires chs != []
    ensures Written(chs) == WrittenOne(chs[0]) + Written(chs[1..]) && Means(chs) == MeansOne(chs[0]) + Means(chs[1..])
  {
  }

  lemma {:induction false} SpelledCons(c: Ch, rest: seq<Ch>)
    ensures Written([c] + rest) == WrittenOne(c) + Written(rest) && Means([c] + rest) == MeansOne(c) + Means(rest)
  {
    assert ([c] + rest)[1..] == rest;
  }

  lemma {:induction false} EscapeMends(v: map<Text, Text>, chs: seq<Ch>)
    requires AllShaped(v.Keys) && ChsOk(chs) && TokensRaw(v.Keys, chs) && chs != [] && chs[0].Esc?
    ensures AllShaped(EscapedOriginals(v).Keys)
    ensures var w := EscapedOriginals(v);
            && Restore(w, Written(chs)) == WrittenOne(chs[0]) + Restore(w, Written(chs[1..]))
            && Restore(v, Means(chs)) == MeansOne(chs[0]) + Restore(v, Means(chs[1..]))
  {
    hide Restore, Hit, TokensRaw;
    var w, c, rest := EscapedOriginals(v), chs[0], chs[1..];
    assert ChOk(c);
    EscapeHasNoLt(c.written);
    PlainPasses(w, c.written, Written(rest));
    forall i: nat | i < |c.means| ensures !Hit(v.Keys, Means(chs), i) {
      EscapeStartsNoToken(v.Keys, chs, i);
    }
    RestoreSkip(v, Means(chs), |c.means|);
    assert Means(chs)[..|c.means|] == c.means && Means(chs)[|c.means|..] == Means(rest);
  }

  lemma {:induction false} TokenMends(v: map<Text, Text>, chs: seq<Ch>, k: Text)
    requires AllShaped(v.Keys) && k in v && RawAt(chs, 0, k)
    ensures AllShaped(EscapedOriginals(v).Keys)
    ensures var w := EscapedOriginals(v);
            && Restore(w, Written(chs)) == Escape(v[k]) + Restore(w, Written(chs[|k|..]))
            && Restore(v, Means(chs)) == v[k] + Restore(v, Means(chs[|k|..]))
  {
    hide Restore, Written, Means;
    var w := EscapedOriginals(v);
    RawRun(chs, k);
    var a, b := Written(chs[|k|..]), Means(chs[|k|..]);
    assert (k + a)[..|k|] == k && (k + a)[|k|..] == a && (k + b)[..|k|] == k && (k + b)[|k|..] == b;
    FirstToken(w, k + a, k);
    FirstToken(v, k + b, k);
  }

  lemma {:induction false} ByteMends(v: map<Text, Text>, chs: seq<Ch>)
    requires AllShaped(v.Keys) && ChsOk(chs) && chs != [] && chs[0].Raw? && !Hit(v.Keys, Means(chs), 0)
    ensures AllShaped(EscapedOriginals(v).Keys)
    ensures var w := EscapedOriginals(v);
            && Restore(w, Written(chs)) == WrittenOne(chs[0]) + Restore(w, Written(chs[1..]))
            && Restore(v, Means(chs)) == MeansOne(chs[0]) + Restore(v, Means(chs[1..]))
  {
    hide Restore, RawAt;
    var w := EscapedOriginals(v);
    SeenHitIsMeant(v.Keys, chs);
    assert w.Keys == v.Keys;
    FirstByte(w, Written(chs));
    FirstByte(v, Means(chs));
    assert Written(chs)[1..] == Written(chs[1..]) && Means(chs)[1..] == Means(chs[1..]);
  }

  lemma {:induction false} SeenHitIsMeant(keys: set<Text>, chs: seq<Ch>)
    requires AllShaped(keys) && ChsOk(chs)
    ensures Hit(keys, Written(chs), 0) ==> Hit(keys, Means(chs), 0)
  {
    hide Written, Means;
    if Hit(keys, Written(chs), 0) {
      var k := HitKey(keys, Written(chs), 0);
      ShapedNeedsNoEscape(k);
      assert k <= Written(chs);
      SeenIsRaw(chs, k);
      RawRun(chs, k);
      assert (k + Means(chs[|k|..]))[..|k|] == k;
      assert Occurs(k, Means(chs), 0);
    }
  }

  // ----- whole texts -----

  /** A stretch outside strings, or a string. */
  datatype Lexeme = Struct(t: Text) | Quoted(chs: seq<Ch>)

  predicate LexemeOk(l: Lexeme) { if l.Struct? then LT !in l.t && QUOTE !in l.t else ChsOk(l.chs) }

  predicate LexemesOk(ls: seq<Lexeme>) { forall i | 0 <= i < |ls| :: LexemeOk(ls[i]) }

  function WriteOne(l: Lexeme): Text { if l.Struct? then l.t else [QUOTE] + Written(l.chs) + [QUOTE] }

  function Write(ls: seq<Lexeme>): Text { if ls == [] then [] else WriteOne(ls[0]) + Write(ls[1..]) }

  /** What a parser makes of a lexeme. */
  datatype Sense = Punct(t: Text) | Word(m: Text)

  function SenseOf(l: Lexeme): Sense { if l.Struct? then Punct(l.t) else Word(Means(l.chs)) }

  function Senses(ls: seq<Lexeme>): (ss: seq<Sense>)
    ensures |ss| == |ls| && forall i | 0 <= i < |ls| :: ss[i] == SenseOf(ls[i])
  {
    seq(|ls|, i requires 0 <= i < |ls| => SenseOf(ls[i]))
  }

  ghost function RestoreSense(v: map<Text, Text>, s: Sense): Sense
    requires AllShaped(v.Keys)
  {
    if s.Punct? then s else Word(Restore(v, s.m))
  }

  /** Every string of the text spells its tokens without escapes. */
  ghost predicate AllTokensRaw(keys: set<Text>, ls: seq<Lexeme>) {
    forall i | 0 <= i < |ls| :: ls[i].Quoted? ==> TokensRaw(keys, ls[i].chs)
  }

  lemma {:induction false} LexemeMends(v: map<Text, Text>, l: Lexeme, x: Text) returns (out: Lexeme)
    requires AllShaped(v.Keys) && LexemeOk(l) && (l.Quoted? ==> TokensRaw(v.Keys, l.chs))
    ensures LexemeOk(out) && SenseOf(out) == RestoreSense(v, SenseOf(l)) && AllShaped(EscapedOriginals(v).Keys)
    ensures var w := EscapedOriginals(v);
            Restore(w, WriteOne(l) + x) == WriteOne(out) + Restore(w, x)
  {
    hide Restore, TokensRaw, Written, Means, ChsOk;
    var w := EscapedOriginals(v);
    assert w.Keys == v.Keys;
    if l.Struct? {
      out := l;
      PlainPasses(w, l.t, x);
    } else {
      var chs := StringMends(v, l.chs);
      out := Quoted(chs);
      var a, b := Written(l.chs), Written(chs);
      assert [QUOTE] + a + [QUOTE] + x == [QUOTE] + (a + [QUOTE] + x);
      PlainPasses(w, [QUOTE], a + [QUOTE] + x);
      SeparatorSplits(w, a, QUOTE, x);
      assert [QUOTE] + (b + [QUOTE] + Restore(w, x)) == [QUOTE] + b + [QUOTE] + Restore(w, x);
    }
  }

  lemma {:induction false} TextMends(v: map<Text, Text>, ls: seq<Lexeme>) returns (out: seq<Lexeme>)
    requires AllShaped(v.Keys) && LexemesOk(ls) && AllTokensRaw(v.Keys, ls)
    ensures LexemesOk(out) && |out| == |ls| && AllShaped(EscapedOriginals(v).Keys)
    ensures forall i | 0 <= i < |ls| :: SenseOf(out[i]) == RestoreSense(v, SenseOf(ls[i]))
    ensures Write(out) == Restore(EscapedOriginals(v), Write(ls))
    decreases |ls|
  {
    hide Restore, TokensRaw, LexemeOk, SenseOf, WriteOne, RestoreSense;
    if ls == [] {
      NothingSpelled(v);
      out := [];
    } else {
      var rest := TextMends(v, ls[1..]);
      var first := LexemeMends(v, ls[0], Write(ls[1..]));
      out := [first] + rest;
      assert out[1..] == rest;
      forall i | 0 <= i < |ls| ensures SenseOf(out[i]) == RestoreSense(v, SenseOf(ls[i])) {
        if i > 0 {
          assert out[i] == rest[i - 1] && ls[i] == ls[1..][i - 1];
        }
      }
    }
  }

  /** The streamed tool-argument channel on a JSON text spelled in any way: if every string spells its
      tokens without escapes, then for every fragmentation what comes out is a JSON text with the same
      structure whose strings, keys and values alike, are the restored ones. */
  lemma {:induction false} StreamedTextAgrees(v: map<Text, Text>, m: nat, ls: seq<Lexeme>, fragments: seq<Text>)
    requires AllShaped(v.Keys) && m >= 1 && (forall k | k in v.Keys :: |k| <= m)
    requires LexemesOk(ls) && AllTokensRaw(v.Keys, ls) && Concat(fragments) == Write(ls)
    ensures AllShaped(EscapedOriginals(v).Keys)
    ensures var (o, held) := FeedAll(EscapedOriginals(v), m, [], fragments);
            exists out :: LexemesOk(out) && o + held == Write(out) && |out| == |ls|
                          && forall i | 0 <= i < |ls| :: SenseOf(out[i]) == RestoreSense(v, SenseOf(ls[i]))
  {
    hide Restore, FeedAll, Write, LexemesOk, AllTokensRaw, SenseOf, RestoreSense, AllShaped;
    var out := TextMends(v, ls);
    EscapedFit(v, m);
    StreamRefinesOneShot(EscapedOriginals(v), m, fragments);
  }

  lemma {:induction false} EscapedFit(v: map<Text, Text>, m: nat)
    requires forall k | k in v.Keys :: |k| <= m
    ensures forall k | k in EscapedOriginals(v).Keys :: |k| <= m
  {
  }

  /** `\u003c` is such an escape. */
  lemma {:induction false} LtCanBeEscaped()
    ensures EscapeMeans([92, 117, 48, 48, 51, 99]) == Some([LT])
  {
    var t: Text := [92, 117, 48, 48, 51, 99];
    assert t[2..] == [48, 48, HexDigit(3), HexDigit(12)];
    HexPair(3, 12);
  }

  /** A token whose `<` is written as an escape is an input on which the channel fails: the text passes
      untouched, though the string means the token, which the parsed path restores. */
  lemma {:induction false} EscapedTokenPasses(v: map<Text, Text>, t: Text, escape: Text)
    requires AllShaped(v.Keys) && t in v && EscapeMeans(escape) == Some([LT])
    ensures var chs := [Esc(escape, [LT])] + Canonical(t[1..]);
            && ChsOk(chs) && Means(chs) == t && Restore(v, Means(chs)) == v[t]
            && AllShaped(EscapedOriginals(v).Keys)
            && Restore(EscapedOriginals(v), Write([Quoted(chs)])) == Write([Quoted(chs)])
  {
    hide Restore, EscapeMeans, Written, Means, Canonical, Escape;
    var w, rest := EscapedOriginals(v), Canonical(t[1..]);
    var chs := [Esc(escape, [LT])] + rest;
    assert w.Keys == v.Keys;
    assert Shaped(t);
    CanonicalSpells(t[1..]);
    SpelledCons(Esc(escape, [LT]), rest);
    assert t == [t[0]] + t[1..];
    assert t[..|t|] == t && t[|t|..] == [];
    FirstToken(v, t, t);
    NothingSpelled(v);
    assert v[t] + [] == v[t];
    TailIsPlain(t);
    EscapeHasNoLt(escape);
    var text := Write([Quoted(chs)]);
    assert [Quoted(chs)][1..] == [];
    assert Write([]) == [] && WriteOne(Quoted(chs)) == [QUOTE] + Written(chs) + [QUOTE];
    assert text == WriteOne(Quoted(chs)) + [];
    PlainPasses(w, text, []);
    assert text + [] == text;
  }

  lemma {:induction false} TailIsPlain(t: Text)
    requires Shaped(t)
    ensures LT !in Escape(t[1..])
  {
    var u := t[1..];
    forall i | 0 <= i < |u| ensures !MustEscape(u[i]) && u[i] != LT {
      assert u[i] == t[i + 1];
    }
    PlainEscape(u);
  }

  lemma {:induction false} PlainEscape(u: Text)
    requires forall i | 0 <= i < |u| :: !MustEscape(u[i])
    ensures Escape(u) == u
  {
    if u != [] {
      PlainEscape(u[1..]);
      assert u == [u[0]] + u[1..];
    }
  }

  // ----- every JSON text is such a text -----

  ghost predicate Lexed(t: Text) { exists ls :: LexemesOk(ls) && Write(ls) == t }

  lemma {:induction false} WriteConcat(a: seq<Lexeme>, b: seq<Lexeme>)
    ensures Write(a + b) == Write(a) + Write(b)
  {
    hide WriteOne;
    if a == [] {
      assert a + b == b;
    } else {
      WriteConcat(a[1..], b);
      assert (a + b)[1..] == a[1..] + b && (a + b)[0] == a[0];
      Assoc(WriteOne(a[0]), Write(a[1..]), Write(b));
    }
  }

  lemma {:induction false} LexedConcat(a: Text, b: Text)
    requires Lexed(a) && Lexed(b)
    ensures Lexed(a + b)
  {
    hide Write, LexemeOk;
    var x :| LexemesOk(x) && Write(x) == a;
    var y :| LexemesOk(y) && Write(y) == b;
    WriteConcat(x, y);
    assert LexemesOk(x + y);
  }

  lemma {:induction false} LexedOne(l: Lexeme)
    requires LexemeOk(l)
    ensures Lexed(WriteOne(l))
  {
    hide WriteOne, LexemeOk;
    var ls := [l];
    assert ls[1..] == [] && Write([]) == [] && WriteOne(l) + [] == WriteOne(l);
    assert Write(ls) == WriteOne(l);
  }

  predicate Plain(s: Text, i: nat, j: nat) {
    i <= j <= |s| && forall x | i <= x < j :: s[x] != LT && s[x] != QUOTE
  }

  lemma {:induction false} LexedPlain(s: Text, i: nat, j: nat)
    requires Plain(s, i, j)
    ensures Lexed(s[i..j])
  {
    LexedOne(Struct(s[i..j]));
  }

  /** A stretch that is lexed, then a plain one or a lexed one. */
  lemma {:induction false} LexedJoin(s: Text, i: nat, j: nat, k: nat)
    requires i <= j <= k <= |s| && Lexed(s[i..j]) && Lexed(s[j..k])
    ensures Lexed(s[i..k])
  {
    hide Lexed;
    LexedConcat(s[i..j], s[j..k]);
    assert s[i..k] == s[i..j] + s[j..k];
  }

  /** The recognizer's escapes are the reader's. */
  lemma {:induction false} EscapeAgrees(s: Text, i: nat)
    requires i < |s| && EscapeLength(s, i) > 0
    ensures EscapeMeans(s[i..i + EscapeLength(s, i)]).Some?
  {
    hide UnitAt, HexAt, HexDigits;
    var n := EscapeLength(s, i);
    var t := s[i..i + n];
    if n == 6 {
      UnitAgrees(s, i + 2);
      assert t[2..] == s[i + 2..i + 6];
    } else if n == 12 {
      UnitAgrees(s, i + 2);
      UnitAgrees(s, i + 8);
      assert t[..6][2..] == s[i + 2..i + 6] && t[6..][2..] == s[i + 8..i + 12];
    }
  }

  lemma {:induction false} HexStep(t: Text, b: byte)
    requires IsHex(b) && HexDigits(t).Some?
    ensures HexDigits(t + [b]) == Some(16 * HexDigits(t).value + Nibble(b)) && HexDigits([]) == Some(0)
  {
    assert (t + [b])[..|t|] == t;
  }

  lemma {:induction false} UnitAgrees(s: Text, i: nat)
    requires HexAt(s, i)
    ensures HexDigits(s[i..i + 4]) == Some(UnitAt(s, i)) && UnitAt(s, i) < 0x10000
  {
    hide HexDigits, Nibble;
    assert IsHex(s[i]) && IsHex(s[i + 1]) && IsHex(s[i + 2]) && IsHex(s[i + 3]);
    assert HexDigits([]) == Some(0) by { NoHexDigits(); }
    HexStep([], s[i]);
    HexStep([] + [s[i]], s[i + 1]);
    HexStep([] + [s[i]] + [s[i + 1]], s[i + 2]);
    HexStep([] + [s[i]] + [s[i + 1]] + [s[i + 2]], s[i + 3]);
    assert s[i..i + 4] == [] + [s[i]] + [s[i + 1]] + [s[i + 2]] + [s[i + 3]];
  }

  lemma {:induction false} NoHexDigits()
    ensures HexDigits([]) == Some(0)
  {
  }

  /** The inside of a string, up to its closing quote. */
  lemma {:induction false} StringSpelled(s: Text, i: nat) returns (chs: seq<Ch>)
    requires i <= |s| && StringEnd(s, i).Some?
    ensures ChsOk(chs) && Written(chs) + [QUOTE] == s[i..StringEnd(s, i).value]
    decreases |s| - i
  {
    hide Written, EscapeMeans, EscapeLength;
    var end := StringEnd(s, i).value;
    if s[i] == QUOTE {
      chs := [];
      assert Written([]) == [] by { NoneWritten(); }
      assert s[i..i + 1] == [QUOTE] && [] + [QUOTE] == [QUOTE];
    } else {
      var n := if s[i] != BACKSLASH then 1 else EscapeLength(s, i);
      if s[i] == BACKSLASH {
        EscapeAgrees(s, i);
      }
      var c := if s[i] != BACKSLASH then Raw(s[i]) else Esc(s[i..i + n], EscapeMeans(s[i..i + n]).value);
      var rest := StringSpelled(s, i + n);
      chs := [c] + rest;
      SpelledCons(c, rest);
      assert WrittenOne(c) == s[i..i + n];
      assert s[i..end] == s[i..i + n] + s[i + n..end];
      Assoc(WrittenOne(c), Written(rest), [QUOTE]);
    }
  }

  lemma {:induction false} NoneWritten()
    ensures Written([]) == []
  {
  }

  lemma {:induction false} LexedString(s: Text, i: nat)
    requires i < |s| && s[i] == QUOTE && StringEnd(s, i + 1).Some?
    ensures Lexed(s[i..StringEnd(s, i + 1).value])
  {
    hide StringEnd, Lexed, Written;
    var end := StringEnd(s, i + 1).value;
    var chs := StringSpelled(s, i + 1);
    LexedOne(Quoted(chs));
    assert s[i..end] == [QUOTE] + s[i + 1..end];
    Assoc([QUOTE], Written(chs), [QUOTE]);
  }

  lemma {:induction false} DigitsArePlain(s: Text, i: nat)
    requires i <= |s|
    ensures Plain(s, i, DigitsEnd(s, i))
    decreases |s| - i
  {
    if i < |s| && IsDigit(s[i]) {
      DigitsArePlain(s, i + 1);
    }
  }

  lemma {:induction false} NumberIsPlain(s: Text, i: nat)
    requires i < |s| && StartsNumber(s[i]) && NumberEnd(s, i).Some?
    ensures Plain(s, i, NumberEnd(s, i).value)
  {
    hide DigitsEnd, IsDigit;
    var start := if s[i] == 45 then i + 1 else i;
    var whole := IntEnd(s, start).value;
    var frac := FracEnd(s, whole).value;
    DigitsArePlain(s, start);
    if whole < |s| && s[whole] == 46 {
      DigitsArePlain(s, whole + 1);
    }
    if frac < |s| && (s[frac] == 101 || s[frac] == 69) {
      DigitsArePlain(s, if frac + 1 < |s| && (s[frac + 1] == 43 || s[frac + 1] == 45) then frac + 2 else frac + 1);
    }
  }

  lemma {:induction false} WordIsPlain(s: Text, i: nat, word: Text)
    requires i < |s| && word != [] && LT !in word && QUOTE !in word && LiteralEnd(s, i, word).Some?
    ensures Plain(s, i, LiteralEnd(s, i, word).value)
  {
    forall x | i <= x < i + |word| ensures s[x] != LT && s[x] != QUOTE {
      assert s[x] == s[i..i + |word|][x - i];
      assert s[x] in word;
    }
  }

  /** White space and one byte of punctuation on either side of it. */
  lemma {:induction false} SpaceIsPlain(s: Text, i: nat)
    requires i <= |s|
    ensures Plain(s, i, SkipWs(s, i))
  {
  }

  lemma {:induction false} LexedValue(s: Text, i: nat)
    requires i <= |s| && ValueEnd(s, i).Some?
    ensures Lexed(s[i..ValueEnd(s, i).value])
    decreases |s| - i, 0
  {
    hide Lexed, SkipWs, StringEnd, MembersEnd, ItemsEnd, NumberEnd, LiteralEnd;
    var end := ValueEnd(s, i).value;
    if s[i] == QUOTE {
      LexedString(s, i);
    } else if s[i] == LBRACE || s[i] == LBRACKET {
      var j := SkipWs(s, i + 1);
      SpaceIsPlain(s, i + 1);
      assert Plain(s, i, j);
      if end == j + 1 && s[j] in {RBRACE, RBRACKET} {
        LexedPlain(s, i, end);
      } else {
        LexedPlain(s, i, j);
        if s[i] == LBRACE {
          LexedMembers(s, j);
        } else {
          LexedItems(s, j);
        }
        LexedJoin(s, i, j, end);
      }
    } else {
      ScalarIsPlain(s, i);
      LexedPlain(s, i, end);
    }
  }

  lemma {:induction false} ScalarIsPlain(s: Text, i: nat)
    requires i < |s| && s[i] != QUOTE && s[i] != LBRACE && s[i] != LBRACKET && ValueEnd(s, i).Some?
    ensures Plain(s, i, ValueEnd(s, i).value)
  {
    hide NumberEnd, LiteralEnd, Plain;
    if s[i] == 116 {
      WordIsPlain(s, i, Ascii("true"));
    } else if s[i] == 102 {
      WordIsPlain(s, i, Ascii("false"));
    } else if s[i] == 110 {
      WordIsPlain(s, i, Ascii("null"));
    } else {
      NumberIsPlain(s, i);
    }
  }

  lemma {:induction false} LexedKey(s: Text, i: nat)
    requires i <= |s| && KeyEnd(s, i).Some?
    ensures Lexed(s[i..KeyEnd(s, i).value])
  {
    hide Lexed, SkipWs, StringEnd;
    var key := StringEnd(s, i + 1).value;
    var colon := SkipWs(s, key);
    LexedString(s, i);
    SpaceIsPlain(s, key);
    SpaceIsPlain(s, colon + 1);
    LexedPlain(s, key, SkipWs(s, colon + 1));
    LexedJoin(s, i, key, SkipWs(s, colon + 1));
  }

  lemma {:induction false} LexedMembers(s: Text, i: nat)
    requires i <= |s| && MembersEnd(s, i).Some?
    ensures Lexed(s[i..MembersEnd(s, i).value])
    decreases |s| - i, 1
  {
    hide Lexed, SkipWs, KeyEnd, ValueEnd, MembersEnd;
    MembersHead(s, i);
    var v := KeyEnd(s, i).value;
    var value := ValueEnd(s, v).value;
    var j, end := SkipWs(s, value), MembersEnd(s, i).value;
    MembersStep(s, i, v, value);
    LexedKey(s, i);
    LexedValue(s, v);
    LexedJoin(s, i, v, value);
    SpaceIsPlain(s, value);
    if s[j] == COMMA {
      var k := SkipWs(s, j + 1);
      SpaceIsPlain(s, j + 1);
      LexedPlain(s, value, k);
      LexedMembers(s, k);
      LexedJoin(s, i, value, k);
      LexedJoin(s, i, k, end);
    } else {
      LexedPlain(s, value, end);
      LexedJoin(s, i, value, end);
    }
  }

  lemma {:induction false} LexedItems(s: Text, i: nat)
    requires i <= |s| && ItemsEnd(s, i).Some?
    ensures Lexed(s[i..ItemsEnd(s, i).value])
    decreases |s| - i, 1
  {
    hide Lexed, SkipWs, ValueEnd, ItemsEnd;
    ItemsHead(s, i);
    var value := ValueEnd(s, i).value;
    var j, end := SkipWs(s, value), ItemsEnd(s, i).value;
    ItemsStep(s, i, value);
    LexedValue(s, i);
    SpaceIsPlain(s, value);
    if s[j] == COMMA {
      var k := SkipWs(s, j + 1);
      SpaceIsPlain(s, j + 1);
      LexedPlain(s, value, k);
      LexedItems(s, k);
      LexedJoin(s, i, value, k);
      LexedJoin(s, i, k, end);
    } else {
      LexedPlain(s, value, end);
      LexedJoin(s, i, value, end);
    }
  }

  /** Every JSON text is a sequence of lexemes, so the law of the stream speaks of all of them. */
  lemma {:induction false} JsonIsLexed(s: Text)
    requires IsJson(s)
    ensures exists ls :: LexemesOk(ls) && Write(ls) == s
  {
    hide SkipWs, ValueEnd, Lexed;
    var i := SkipWs(s, 0);
    var end := ValueEnd(s, i).value;
    SpaceIsPlain(s, 0);
    SpaceIsPlain(s, end);
    LexedPlain(s, 0, i);
    LexedValue(s, i);
    LexedPlain(s, end, |s|);
    LexedJoin(s, 0, i, end);
    LexedJoin(s, 0, end, |s|);
    assert s[0..|s|] == s;
    LexedIs(s);
  }

  lemma {:induction false} LexedIs(s: Text)
    requires Lexed(s)
    ensures exists ls :: LexemesOk(ls) && Write(ls) == s
  {
  }
}
