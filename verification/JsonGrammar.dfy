/** Which texts are JSON (RFC 8259, sections 2 to 7): a recognizer, and the fact the Gemini encoder's
    buffering relies on. */
module JsonGrammar {
  import opened Bytes

  predicate IsWs(b: byte) { b == SPACE || b == LF || b == CR || b == 9 }

  function SkipWs(s: Text, i: nat): (j: nat)
    requires i <= |s|
    ensures i <= j <= |s| && (j < |s| ==> !IsWs(s[j]))
    ensures forall x | i <= x < j :: IsWs(s[x])
    decreases |s| - i
  {
    if i < |s| && IsWs(s[i]) then SkipWs(s, i + 1) else i
  }

  predicate IsHex(b: byte) { IsDigit(b) || 97 <= b <= 102 || 65 <= b <= 70 }

  predicate HexAt(s: Text, i: nat) { i + 4 <= |s| && forall x | i <= x < i + 4 :: IsHex(s[x]) }

  /** A hexadecimal digit's value. */
  function Nibble(b: byte): (n: nat)
    requires IsHex(b)
    ensures n < 16
  {
    if IsDigit(b) then b - ZERO else if b >= 97 then b - 87 else b - 55
  }

  /** The code unit written by the four digits at `i`. */
  function UnitAt(s: Text, i: nat): nat
    requires HexAt(s, i)
  {
    4096 * Nibble(s[i]) + 256 * Nibble(s[i + 1]) + 16 * Nibble(s[i + 2]) + Nibble(s[i + 3])
  }

  /** The length of the escape at `i`; 0 if there is none.  A surrogate must be the first half of a pair. */
  function EscapeLength(s: Text, i: nat): (n: nat)
    requires i < |s|
    ensures n in {0, 2, 6, 12} && i + n <= |s|
  {
    if s[i] != BACKSLASH || i + 1 == |s| then 0
    else if s[i + 1] in {QUOTE, BACKSLASH, 47, 98, 102, 110, 114, 116} then 2
    else if s[i + 1] != 117 || !HexAt(s, i + 2) then 0
    else if !(0xD800 <= UnitAt(s, i + 2) <= 0xDFFF) then 6
    else if UnitAt(s, i + 2) <= 0xDBFF && i + 12 <= |s| && s[i + 6] == BACKSLASH && s[i + 7] == 117
            && HexAt(s, i + 8) && 0xDC00 <= UnitAt(s, i + 8) <= 0xDFFF
    then 12
    else 0
  }

  /** The end of a string whose opening quote is behind `i`. */
  function StringEnd(s: Text, i: nat): (r: Option<nat>)
    requires i <= |s|
    ensures r.Some? ==> i < r.value <= |s|
    decreases |s| - i
  {
    if i == |s| || s[i] < 0x20 then None
    else if s[i] == QUOTE then Some(i + 1)
    else if s[i] != BACKSLASH then StringEnd(s, i + 1)
    else if EscapeLength(s, i) == 0 then None
    else StringEnd(s, i + EscapeLength(s, i))
  }

  function DigitsEnd(s: Text, i: nat): (j: nat)
    requires i <= |s|
    ensures i <= j <= |s| && (j < |s| ==> !IsDigit(s[j]))
    decreases |s| - i
  {
    if i < |s| && IsDigit(s[i]) then DigitsEnd(s, i + 1) else i
  }

  /** `int`: a lone zero, or digits that do not start with one. */
  function IntEnd(s: Text, i: nat): (r: Option<nat>)
    requires i <= |s|
    ensures r.Some? ==> i < r.value <= |s|
  {
    if i == |s| || !IsDigit(s[i]) then None
    else if s[i] == ZERO then Some(i + 1)
    else Some(DigitsEnd(s, i))
  }

  /** `[ frac ]`. */
  function FracEnd(s: Text, i: nat): (r: Option<nat>)
    requires i <= |s|
    ensures r.Some? ==> i <= r.value <= |s|
  {
    if i == |s| || s[i] != 46 then Some(i)
    else if i + 1 < |s| && IsDigit(s[i + 1]) then Some(DigitsEnd(s, i + 1))
    else None
  }

  /** `[ exp ]`. */
  function ExpEnd(s: Text, i: nat): (r: Option<nat>)
    requires i <= |s|
    ensures r.Some? ==> i <= r.value <= |s|
  {
    if i == |s| || (s[i] != 101 && s[i] != 69) then Some(i)
    else
      var j := if i + 1 < |s| && (s[i + 1] == 43 || s[i + 1] == 45) then i + 2 else i + 1;
      if j < |s| && IsDigit(s[j]) then Some(DigitsEnd(s, j)) else None
  }

  function NumberEnd(s: Text, i: nat): (r: Option<nat>)
    requires i < |s|
    ensures r.Some? ==> i < r.value <= |s|
  {
    var whole := IntEnd(s, if s[i] == 45 then i + 1 else i);
    if whole.None? then None
    else
      var frac := FracEnd(s, whole.value);
      if frac.None? then None else ExpEnd(s, frac.value)
  }

  function LiteralEnd(s: Text, i: nat, word: Text): (r: Option<nat>)
    requires i < |s| && word != []
    ensures r.Some? ==> i < r.value <= |s|
  {
    if i + |word| <= |s| && s[i..i + |word|] == word then Some(i + |word|) else None
  }

  predicate StartsNumber(b: byte) { b == 45 || IsDigit(b) }

  function ValueEnd(s: Text, i: nat): (r: Option<nat>)
    requires i <= |s|
    ensures r.Some? ==> i < r.value <= |s|
    decreases |s| - i, 0
  {
    if i == |s| then None
    else if s[i] == QUOTE then StringEnd(s, i + 1)
    else if s[i] == LBRACE then
      var j := SkipWs(s, i + 1);
      if j < |s| && s[j] == RBRACE then Some(j + 1) else MembersEnd(s, j)
    else if s[i] == LBRACKET then
      var j := SkipWs(s, i + 1);
      if j < |s| && s[j] == RBRACKET then Some(j + 1) else ItemsEnd(s, j)
    else if s[i] == 116 then LiteralEnd(s, i, Ascii("true"))
    else if s[i] == 102 then LiteralEnd(s, i, Ascii("false"))
    else if s[i] == 110 then LiteralEnd(s, i, Ascii("null"))
    else if StartsNumber(s[i]) then NumberEnd(s, i)
    else None
  }

  /** The value position of a member: key, colon, whitespace. */
  function KeyEnd(s: Text, i: nat): (r: Option<nat>)
    requires i <= |s|
    ensures r.Some? ==> i < r.value <= |s|
  {
    if i == |s| || s[i] != QUOTE then None
    else
      var key := StringEnd(s, i + 1);
      if key.None? then None
      else
        var colon := SkipWs(s, key.value);
        if colon == |s| || s[colon] != COLON then None else Some(SkipWs(s, colon + 1))
  }

  /** One or more members and the closing brace. */
  function MembersEnd(s: Text, i: nat): (r: Option<nat>)
    requires i <= |s|
    ensures r.Some? ==> i < r.value <= |s|
    decreases |s| - i, 1
  {
    var key := KeyEnd(s, i);
    if key.None? then None
    else
      var value := ValueEnd(s, key.value);
      if value.None? then None
      else
        var j := SkipWs(s, value.value);
        if j == |s| then None
        else if s[j] == RBRACE then Some(j + 1)
        else if s[j] == COMMA then MembersEnd(s, SkipWs(s, j + 1))
        else None
  }

  /** One or more items and the closing bracket. */
  function ItemsEnd(s: Text, i: nat): (r: Option<nat>)
    requires i <= |s|
    ensures r.Some? ==> i < r.value <= |s|
    decreases |s| - i, 1
  {
    var value := ValueEnd(s, i);
    if value.None? then None
    else
      var j := SkipWs(s, value.value);
      if j == |s| then None
      else if s[j] == RBRACKET then Some(j + 1)
      else if s[j] == COMMA then ItemsEnd(s, SkipWs(s, j + 1))
      else None
  }

  /** `serde_json::from_str::<Value>` succeeds: one value with whitespace around it. */
  predicate IsJson(s: Text) {
    var end := ValueEnd(s, SkipWs(s, 0));
    end.Some? && SkipWs(s, end.value) == |s|
  }

  // ----- reading on after a longer text -----

  lemma {:induction false} SkipWsExtends(p: Text, t: Text, i: nat)
    requires i <= |p| && SkipWs(p, i) < |p|
    ensures SkipWs(p + t, i) == SkipWs(p, i)
    decreases |p| - i
  {
    if IsWs(p[i]) {
      SkipWsExtends(p, t, i + 1);
    }
  }

  lemma {:induction false} HexExtends(p: Text, t: Text, i: nat)
    requires HexAt(p, i)
    ensures HexAt(p + t, i) && UnitAt(p + t, i) == UnitAt(p, i)
  {
    assert forall x | i <= x < i + 4 :: (p + t)[x] == p[x];
  }

  lemma {:induction false} EscapeExtends(p: Text, t: Text, i: nat)
    requires i < |p| && EscapeLength(p, i) > 0
    ensures EscapeLength(p + t, i) == EscapeLength(p, i)
  {
    hide UnitAt, HexAt;
    var s, n := p + t, EscapeLength(p, i);
    assert s[i] == p[i] && s[i + 1] == p[i + 1];
    if n >= 6 {
      HexExtends(p, t, i + 2);
    }
    if n == 12 {
      assert s[i + 6] == p[i + 6] && s[i + 7] == p[i + 7];
      HexExtends(p, t, i + 8);
    }
  }

  lemma {:induction false} StringExtends(p: Text, t: Text, i: nat)
    requires i <= |p| && StringEnd(p, i).Some?
    ensures StringEnd(p + t, i) == StringEnd(p, i)
    decreases |p| - i
  {
    hide EscapeLength;
    assert (p + t)[i] == p[i];
    if p[i] == QUOTE {
    } else if p[i] != BACKSLASH {
      StringExtends(p, t, i + 1);
    } else {
      EscapeExtends(p, t, i);
      StringExtends(p, t, i + EscapeLength(p, i));
    }
  }

  lemma {:induction false} DigitsExtend(p: Text, t: Text, i: nat)
    requires i <= |p| && DigitsEnd(p, i) < |p|
    ensures DigitsEnd(p + t, i) == DigitsEnd(p, i)
    decreases |p| - i
  {
    if IsDigit(p[i]) {
      DigitsExtend(p, t, i + 1);
    }
  }

  lemma {:induction false} IntExtends(p: Text, t: Text, i: nat)
    requires i <= |p| && IntEnd(p, i).Some? && IntEnd(p, i).value < |p|
    ensures IntEnd(p + t, i) == IntEnd(p, i)
  {
    hide DigitsEnd;
    if p[i] != ZERO {
      DigitsExtend(p, t, i);
    }
  }

  lemma {:induction false} FracExtends(p: Text, t: Text, i: nat)
    requires i <= |p| && FracEnd(p, i).Some? && FracEnd(p, i).value < |p|
    ensures FracEnd(p + t, i) == FracEnd(p, i)
  {
    hide DigitsEnd;
    if p[i] == 46 {
      DigitsExtend(p, t, i + 1);
    }
  }

  lemma {:induction false} ExpExtends(p: Text, t: Text, i: nat)
    requires i <= |p| && ExpEnd(p, i).Some? && ExpEnd(p, i).value < |p|
    ensures ExpEnd(p + t, i) == ExpEnd(p, i)
  {
    hide DigitsEnd;
    if p[i] == 101 || p[i] == 69 {
      var j := if i + 1 < |p| && (p[i + 1] == 43 || p[i + 1] == 45) then i + 2 else i + 1;
      DigitsExtend(p, t, j);
    }
  }

  /** A number is known to be over only once something follows it. */
  lemma {:induction false} NumberExtends(p: Text, t: Text, i: nat)
    requires i < |p| && NumberEnd(p, i).Some? && NumberEnd(p, i).value < |p|
    ensures NumberEnd(p + t, i) == NumberEnd(p, i)
  {
    hide IntEnd, FracEnd, ExpEnd;
    var start := if p[i] == 45 then i + 1 else i;
    IntExtends(p, t, start);
    var whole := IntEnd(p, start).value;
    FracExtends(p, t, whole);
    ExpExtends(p, t, FracEnd(p, whole).value);
  }

  lemma {:induction false} LiteralExtends(p: Text, t: Text, i: nat, word: Text)
    requires i < |p| && word != [] && LiteralEnd(p, i, word).Some?
    ensures LiteralEnd(p + t, i, word) == LiteralEnd(p, i, word)
  {
    assert (p + t)[i..i + |word|] == p[i..i + |word|];
  }

  /** A value that ends before the text does, or is no number, is the same value whatever follows. */
  lemma {:induction false} ValueExtends(p: Text, t: Text, i: nat)
    requires i < |p| && ValueEnd(p, i).Some?
    requires ValueEnd(p, i).value < |p| || !StartsNumber(p[i])
    ensures ValueEnd(p + t, i) == ValueEnd(p, i)
    decreases |p| - i, 0
  {
    hide SkipWs, StringEnd, MembersEnd, ItemsEnd, NumberEnd, LiteralEnd;
    var s := p + t;
    assert s[i] == p[i];
    if p[i] == QUOTE {
      StringExtends(p, t, i + 1);
    } else if p[i] == LBRACE {
      var j := SkipWs(p, i + 1);
      SkipWsExtends(p, t, i + 1);
      if p[j] != RBRACE {
        MembersExtend(p, t, j);
      }
    } else if p[i] == LBRACKET {
      var j := SkipWs(p, i + 1);
      assert j < |p|;
      SkipWsExtends(p, t, i + 1);
      if p[j] != RBRACKET {
        ItemsExtend(p, t, j);
      }
    } else if p[i] == 116 {
      LiteralExtends(p, t, i, Ascii("true"));
    } else if p[i] == 102 {
      LiteralExtends(p, t, i, Ascii("false"));
    } else if p[i] == 110 {
      LiteralExtends(p, t, i, Ascii("null"));
    } else {
      NumberExtends(p, t, i);
    }
  }

  lemma {:induction false} KeyExtends(p: Text, t: Text, i: nat)
    requires i <= |p| && KeyEnd(p, i).Some? && KeyEnd(p, i).value < |p|
    ensures KeyEnd(p + t, i) == KeyEnd(p, i)
  {
    hide StringEnd, SkipWs;
    var key := StringEnd(p, i + 1).value;
    StringExtends(p, t, i + 1);
    SkipWsExtends(p, t, key);
    SkipWsExtends(p, t, SkipWs(p, key) + 1);
  }

  /** How a member list goes on after its first member. */
  lemma {:induction false} MembersStep(s: Text, i: nat, v: nat, value: nat)
    requires i <= |s| && KeyEnd(s, i) == Some(v) && ValueEnd(s, v) == Some(value) && SkipWs(s, value) < |s|
    ensures var j := SkipWs(s, value);
            MembersEnd(s, i) == if s[j] == RBRACE then Some(j + 1)
                                else if s[j] == COMMA then MembersEnd(s, SkipWs(s, j + 1)) else None
  {
    hide SkipWs, ValueEnd, KeyEnd;
  }

  lemma {:induction false} MembersHead(s: Text, i: nat)
    requires i <= |s| && MembersEnd(s, i).Some?
    ensures KeyEnd(s, i).Some? && ValueEnd(s, KeyEnd(s, i).value).Some?
    ensures SkipWs(s, ValueEnd(s, KeyEnd(s, i).value).value) < |s|
  {
    hide SkipWs, ValueEnd, KeyEnd;
  }

  lemma {:induction false} MembersExtend(p: Text, t: Text, i: nat)
    requires i < |p| && MembersEnd(p, i).Some?
    ensures MembersEnd(p + t, i) == MembersEnd(p, i)
    decreases |p| - i, 1
  {
    hide SkipWs, ValueEnd, KeyEnd, MembersEnd, StartsNumber;
    MembersHead(p, i);
    var v := KeyEnd(p, i).value;
    var value := ValueEnd(p, v).value;
    var j := SkipWs(p, value);
    ValueEndInside(p, v);
    KeyExtends(p, t, i);
    ValueExtends(p, t, v);
    SkipWsExtends(p, t, value);
    MembersStep(p, i, v, value);
    MembersStep(p + t, i, v, value);
    if p[j] == COMMA {
      var k := SkipWs(p, j + 1);
      MembersStartInside(p, k);
      SkipWsExtends(p, t, j + 1);
      MembersExtend(p, t, k);
    }
  }

  lemma {:induction false} ValueEndInside(p: Text, i: nat)
    requires i <= |p| && ValueEnd(p, i).Some?
    ensures i < |p|
  {
  }

  lemma {:induction false} MembersStartInside(p: Text, i: nat)
    requires i <= |p| && MembersEnd(p, i).Some?
    ensures i < |p|
  {
  }

  lemma {:induction false} ItemsStartInside(p: Text, i: nat)
    requires i <= |p| && ItemsEnd(p, i).Some?
    ensures i < |p|
  {
  }

  /** How an item list goes on after its first item. */
  lemma {:induction false} ItemsStep(s: Text, i: nat, value: nat)
    requires i <= |s| && ValueEnd(s, i) == Some(value) && SkipWs(s, value) < |s|
    ensures var j := SkipWs(s, value);
            ItemsEnd(s, i) == if s[j] == RBRACKET then Some(j + 1)
                              else if s[j] == COMMA then ItemsEnd(s, SkipWs(s, j + 1)) else None
  {
    hide SkipWs, ValueEnd;
  }

  lemma {:induction false} ItemsHead(s: Text, i: nat)
    requires i <= |s| && ItemsEnd(s, i).Some?
    ensures ValueEnd(s, i).Some? && SkipWs(s, ValueEnd(s, i).value) < |s|
  {
    hide SkipWs, ValueEnd;
  }

  lemma {:induction false} ItemsExtend(p: Text, t: Text, i: nat)
    requires i < |p| && ItemsEnd(p, i).Some?
    ensures ItemsEnd(p + t, i) == ItemsEnd(p, i)
    decreases |p| - i, 1
  {
    hide SkipWs, ValueEnd, ItemsEnd, StartsNumber;
    ItemsHead(p, i);
    var value := ValueEnd(p, i).value;
    var j := SkipWs(p, value);
    ValueExtends(p, t, i);
    SkipWsExtends(p, t, value);
    ItemsStep(p, i, value);
    ItemsStep(p + t, i, value);
    if p[j] == COMMA {
      var k := SkipWs(p, j + 1);
      ItemsStartInside(p, k);
      SkipWsExtends(p, t, j + 1);
      ItemsExtend(p, t, k);
    }
  }

  /** A JSON object whose text stops at its closing brace. */
  predicate ObjectText(s: Text) {
    IsJson(s) && SkipWs(s, 0) < |s| && s[SkipWs(s, 0)] == LBRACE && s[|s| - 1] == RBRACE
  }

  /** No proper prefix of an object text is JSON. */
  lemma {:induction false} ObjectsArePrefixFree(s: Text, n: nat)
    requires ObjectText(s) && n < |s|
    ensures !IsJson(s[..n])
  {
    hide ValueEnd;
    var p, t := s[..n], s[n..];
    if IsJson(p) {
      var i := SkipWs(p, 0);
      ValueEndInside(p, i);
      assert s == p + t;
      SkipWsExtends(p, t, 0);
      ValueExtends(p, t, i);
      assert false;
    }
  }

  /** A JSON object, with white space around it or not. */
  predicate ObjectJson(s: Text) { IsJson(s) && SkipWs(s, 0) < |s| && s[SkipWs(s, 0)] == LBRACE }

  predicate IsSpace(s: Text) { forall i | 0 <= i < |s| :: IsWs(s[i]) }

  lemma {:induction false} ObjectIsJson(s: Text)
    requires ObjectJson(s)
    ensures IsJson(s)
  {
  }

  lemma {:induction false} SpaceSkips(s: Text, i: nat)
    requires i <= |s| && forall x | i <= x < |s| :: IsWs(s[x])
    ensures SkipWs(s, i) == |s|
    decreases |s| - i
  {
    if i < |s| {
      SpaceSkips(s, i + 1);
    }
  }

  /** Nothing, and white space alone, is no JSON. */
  lemma {:induction false} SpaceIsNoJson(s: Text, t: Text)
    requires IsSpace(s + t)
    ensures !IsJson(s)
  {
    hide SkipWs;
    forall x | 0 <= x < |s| ensures IsWs(s[x]) {
      assert (s + t)[x] == s[x];
    }
    SpaceSkips(s, 0);
  }

  lemma {:induction false} NothingIsNoJson()
    ensures !IsJson([])
  {
    SpaceIsNoJson([], []);
  }

  /** A prefix of an object that is JSON is that object but for white space at the end. */
  lemma {:induction false} SpaceAfterObject(p: Text, t: Text)
    requires ObjectJson(p + t) && IsJson(p)
    ensures IsSpace(t)
  {
    hide ValueEnd, SkipWs;
    ObjectPrefix(p, t);
    var s, i := p + t, SkipWs(p, 0);
    SkipWsExtends(p, t, 0);
    ValueExtends(p, t, i);
    var end := ValueEnd(p, i).value;
    forall x | 0 <= x < |t| ensures IsWs(t[x]) {
      assert s[|p| + x] == t[x];
    }
  }

  lemma {:induction false} ObjectPrefix(p: Text, t: Text)
    requires ObjectJson(p + t) && IsJson(p)
    ensures ObjectJson(p)
  {
    hide ValueEnd, SkipWs;
    ValueEndInside(p, SkipWs(p, 0));
    SkipWsExtends(p, t, 0);
  }

  /** Behind an object's closing brace an object text has nothing. */
  lemma {:induction false} NoSpaceAfterText(p: Text, t: Text)
    ensures IsSpace(t) && t != [] ==> !ObjectText(p + t)
  {
    hide IsJson, SkipWs;
    if IsSpace(t) && t != [] {
      assert (p + t)[|p + t| - 1] == t[|t| - 1] && IsWs(t[|t| - 1]);
    }
  }

  lemma {:induction false} BracesAreJson()
    ensures IsJson([LBRACE, RBRACE])
  {
    var s := [LBRACE, RBRACE];
    assert SkipWs(s, 0) == 0 && SkipWs(s, 1) == 1 && SkipWs(s, 2) == 2;
  }
}
