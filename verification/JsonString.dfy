/** JSON string escaping as serde_json prints it (section 7 of RFC 8259). */
module JsonString {
  import opened Bytes
  import opened TokenGrammar
  import opened TokenSearch

  function HexDigit(n: nat): byte
    requires n < 16
  {
    if n < 10 then ZERO + n else 97 + (n - 10)
  }

  predicate MustEscape(b: byte) { b == QUOTE || b == BACKSLASH || b < 0x20 }

  function EscapeByte(b: byte): (t: Text)
    ensures !MustEscape(b) ==> t == [b]
    ensures MustEscape(b) ==> |t| >= 2 && t[0] == BACKSLASH && LT !in t
  {
    if b == QUOTE then [BACKSLASH, QUOTE]
    else if b == BACKSLASH then [BACKSLASH, BACKSLASH]
    else if b == 8 then [BACKSLASH, 98]    // \b
    else if b == 9 then [BACKSLASH, 116]   // \t
    else if b == LF then [BACKSLASH, 110]  // \n
    else if b == 12 then [BACKSLASH, 102]  // \f
    else if b == CR then [BACKSLASH, 114]  // \r
    else if b < 0x20 then [BACKSLASH, 117, ZERO, ZERO, HexDigit(b / 16), HexDigit(b % 16)]
    else [b]
  }

  /** The inside of a printed string: `serde_json::to_string` without its quotes. */
  function Escape(s: Text): Text {
    if s == [] then [] else EscapeByte(s[0]) + Escape(s[1..])
  }

  /** The vault as the tool-argument channel splices it. */
  function EscapedOriginals(v: map<Text, Text>): map<Text, Text> {
    map t | t in v :: Escape(v[t])
  }

  lemma {:induction false} EscapeConcat(a: Text, b: Text)
    ensures Escape(a + b) == Escape(a) + Escape(b)
  {
    hide EscapeByte;
    if a == [] {
      assert a + b == b;
    } else {
      var head := EscapeByte(a[0]);
      EscapeConcat(a[1..], b);
      assert (a + b)[1..] == a[1..] + b;
      assert Escape(a + b) == head + Escape((a + b)[1..]);
      Assoc(head, Escape(a[1..]), Escape(b));
    }
  }

  predicate NeedsNoEscape(s: Text) { forall i | 0 <= i < |s| :: !MustEscape(s[i]) }

  /** A text of unescaped bytes is seen in an escaped text exactly where it is in the original. */
  lemma {:induction false} PrefixSurvivesEscape(k: Text, s: Text)
    requires NeedsNoEscape(k)
    ensures k <= Escape(s) <==> k <= s
    ensures k <= s ==> Escape(s) == k + Escape(s[|k|..])
  {
    hide Escape, EscapeByte;
    EscapeUnfold(s);
    if k == [] {
      assert s[0..] == s;
    } else if s != [] && k[0] == s[0] {
      PrefixSurvivesEscape(k[1..], s[1..]);
      ConsPrefix(k[0], k[1..], Escape(s[1..]));
      ConsPrefix(k[0], k[1..], s[1..]);
      assert k == [k[0]] + k[1..] && s == [k[0]] + s[1..];
      if k <= s {
        assert s[1..][|k| - 1..] == s[|k|..];
        assert Escape(s) == [k[0]] + (k[1..] + Escape(s[|k|..]));
      }
    } else if s != [] {
      assert Escape(s)[0] == s[0] || Escape(s)[0] == BACKSLASH;
    }
  }

  lemma {:induction false} EscapeUnfold(s: Text)
    ensures s == [] ==> Escape(s) == []
    ensures s != [] ==> Escape(s) == EscapeByte(s[0]) + Escape(s[1..])
  {
  }

  lemma {:induction false} ConsPrefix(x: byte, a: Text, b: Text)
    ensures [x] + a <= [x] + b <==> a <= b
  {
    var xa, xb := [x] + a, [x] + b;
    if xa <= xb {
      assert a == xa[1..] == xb[..|xa|][1..] == b[..|a|];
    }
    if a <= b {
      assert xb[..|xa|] == [x] + b[..|a|];
    }
  }

  lemma {:induction false} ShapedNeedsNoEscape(k: Text)
    requires Shaped(k)
    ensures NeedsNoEscape(k)
  {
  }

  lemma {:induction false} HitSurvivesEscape(keys: set<Text>, s: Text)
    requires AllShaped(keys)
    ensures Hit(keys, Escape(s), 0) <==> Hit(keys, s, 0)
  {
    forall k | k in keys ensures Occurs(k, Escape(s), 0) <==> Occurs(k, s, 0) {
      ShapedNeedsNoEscape(k);
      PrefixSurvivesEscape(k, s);
      assert Occurs(k, s, 0) <==> k <= s;
      assert Occurs(k, Escape(s), 0) <==> k <= Escape(s);
    }
  }

  /** Escaping commutes with restoring: splicing escaped originals into escaped text is the
      same as escaping the restored text. */
  lemma {:induction false} EscapeCommutes(v: map<Text, Text>, s: Text)
    requires AllShaped(v.Keys)
    ensures EscapedOriginals(v).Keys == v.Keys
    ensures Restore(EscapedOriginals(v), Escape(s)) == Escape(Restore(v, s))
    decreases |s|
  {
    var w, es := EscapedOriginals(v), Escape(s);
    if s == [] {
    } else {
      HitSurvivesEscape(v.Keys, s);
      if Hit(v.Keys, s, 0) {
        var k := HitKey(v.Keys, s, 0);
        ShapedNeedsNoEscape(k);
        PrefixSurvivesEscape(k, s);
        HitKeyUnique(v.Keys, es, 0, k);
        EscapeCommutes(v, s[|k|..]);
        assert es[|k|..] == Escape(s[|k|..]);
        EscapeConcat(v[k], Restore(v, s[|k|..]));
      } else {
        EscapeCommutes(v, s[1..]);
        EscapedByteRestores(w, s[0], Escape(s[1..]));
        EscapeConcat([s[0]], Restore(v, s[1..]));
        assert Escape([s[0]]) == EscapeByte(s[0]) by { assert [s[0]][1..] == []; }
      }
    }
  }

  /** Bytes other than `<` start no token. */
  lemma {:induction false} OnlyLtStartsToken(keys: set<Text>, s: Text, i: nat)
    requires AllShaped(keys) && i < |s| && s[i] != LT
    ensures !Hit(keys, s, i)
  {
    if Hit(keys, s, i) {
      OccurrenceBounds(HitKey(keys, s, i), s, i);
      assert false;
    }
  }

  lemma {:induction false} EscapedByteRestores(w: map<Text, Text>, b: byte, rest: Text)
    requires AllShaped(w.Keys)
    requires !Hit(w.Keys, EscapeByte(b) + rest, 0)
    ensures Restore(w, EscapeByte(b) + rest) == EscapeByte(b) + Restore(w, rest)
  {
    var e := EscapeByte(b);
    var s := e + rest;
    forall i: nat | i < |e| ensures !Hit(w.Keys, s, i) {
      if i > 0 {
        assert s[i] == e[i];
        OnlyLtStartsToken(w.Keys, s, i);
      }
    }
    RestoreSkip(w, s, |e|);
    assert s[..|e|] == e && s[|e|..] == rest;
  }
}
