/** The grammar of RFC 8259 as derivations, written apart from the recognizer, and that the recognizer
    accepts exactly the texts that have one. */
module JsonDerivation {
  import opened Bytes
  import opened JsonString
  import opened JsonReader
  import opened JsonGrammar
  import Lex = JsonLexemes

  // ----- derivations (sections 2 to 7) -----

  /** `[ minus ] int [ frac ] [ exp ]`: the digits of each, and the exponent's letter and sign. */
  datatype Numeral = Numeral(minus: bool, whole: Text, frac: Option<Text>, exp: Option<Exponent>)
  datatype Exponent = Exponent(capital: bool, sign: Option<bool>, digits: Text)

  datatype Tree =
    | TNull
    | TBool(b: bool)
    | TNumber(numeral: Numeral)
    | TString(chs: seq<Ch>)
    | TArray(inside: Text, items: seq<Item>)
    | TObject(inside: Text, fields: seq<Field>)

  /** White space on either side of what stands between two commas. */
  datatype Item = Item(before: Text, value: Tree, after: Text)
  datatype Field = Field(before: Text, key: seq<Ch>, afterKey: Text, beforeValue: Text, value: Tree, after: Text)

  predicate Space(t: Text) { forall i | 0 <= i < |t| :: t[i] in {0x20, 0x09, 0x0A, 0x0D} }

  predicate Digits(t: Text) { t != [] && forall i | 0 <= i < |t| :: 0x30 <= t[i] <= 0x39 }

  predicate NumeralOk(n: Numeral) {
    && Digits(n.whole) && (n.whole[0] == 0x30 ==> |n.whole| == 1)
    && (n.frac.Some? ==> Digits(n.frac.value)) && (n.exp.Some? ==> Digits(n.exp.value.digits))
  }

  predicate TreeOk(t: Tree) {
    match t
    case TNumber(n) => NumeralOk(n)
    case TString(chs) => ChsOk(chs)
    case TArray(inside, items) =>
      Space(inside) && forall i | 0 <= i < |items| :: Space(items[i].before) && Space(items[i].after) && TreeOk(items[i].value)
    case TObject(inside, fields) =>
      Space(inside) && forall i | 0 <= i < |fields| ::
        && Space(fields[i].before) && ChsOk(fields[i].key) && Space(fields[i].afterKey)
        && Space(fields[i].beforeValue) && TreeOk(fields[i].value) && Space(fields[i].after)
    case _ => true
  }

  // ----- the text of a derivation -----

  function FracText(n: Numeral): Text { if n.frac.Some? then [0x2E] + n.frac.value else [] }

  function ExpText(e: Exponent): Text {
    [if e.capital then 0x45 else 0x65]
    + (match e.sign case Some(plus) => [if plus then 0x2B else 0x2D] case None => []) + e.digits
  }

  function NumeralText(n: Numeral): Text {
    (if n.minus then [0x2D] else []) + n.whole + FracText(n) + (if n.exp.Some? then ExpText(n.exp.value) else [])
  }

  function QuotedText(chs: seq<Ch>): Text { [0x22] + Written(chs) + [0x22] }

  function Yield(t: Tree): Text {
    match t
    case TNull => [0x6E, 0x75, 0x6C, 0x6C]
    case TBool(b) => if b then [0x74, 0x72, 0x75, 0x65] else [0x66, 0x61, 0x6C, 0x73, 0x65]
    case TNumber(n) => NumeralText(n)
    case TString(chs) => QuotedText(chs)
    case TArray(inside, items) => [0x5B] + (if items == [] then inside else YieldItems(items)) + [0x5D]
    case TObject(inside, fields) => [0x7B] + (if fields == [] then inside else YieldFields(fields)) + [0x7D]
  }

  function YieldItems(items: seq<Item>): Text {
    if items == [] then []
    else items[0].before + Yield(items[0].value) + items[0].after
         + (if |items| == 1 then [] else [0x2C] + YieldItems(items[1..]))
  }

  function YieldFields(fields: seq<Field>): Text {
    if fields == [] then []
    else
      var f := fields[0];
      f.before + QuotedText(f.key) + f.afterKey + [0x3A] + f.beforeValue + Yield(f.value) + f.after
      + (if |fields| == 1 then [] else [0x2C] + YieldFields(fields[1..]))
  }

  // ----- reading a text at a position -----

  /** `y` stands in `s` at `i`. */
  predicate At(s: Text, i: nat, y: Text) { i + |y| <= |s| && s[i..i + |y|] == y }

  lemma {:induction false} AtSplit(s: Text, i: nat, a: Text, b: Text)
    ensures At(s, i, a + b) <==> At(s, i, a) && At(s, i + |a|, b)
  {
    if At(s, i, a + b) {
      assert s[i..i + |a|] == (a + b)[..|a|] == a;
      assert s[i + |a|..i + |a| + |b|] == (a + b)[|a|..] == b;
    }
    if At(s, i, a) && At(s, i + |a|, b) {
      assert s[i..i + |a + b|] == s[i..i + |a|] + s[i + |a|..i + |a| + |b|];
    }
  }

  lemma {:induction false} AtByte(s: Text, i: nat, c: byte)
    ensures At(s, i, [c]) <==> i < |s| && s[i] == c
  {
  }

  lemma {:induction false} AtIndex(s: Text, i: nat, y: Text, k: nat)
    requires At(s, i, y) && k < |y|
    ensures i + k < |s| && s[i + k] == y[k]
  {
    assert s[i..i + |y|][k] == y[k];
  }

  /** White space is skipped up to what is none. */
  lemma {:induction false} SkipsSpace(s: Text, i: nat, w: Text)
    requires Space(w) && At(s, i, w) && (i + |w| == |s| || !IsWs(s[i + |w|]))
    ensures SkipWs(s, i) == i + |w|
    decreases |w|
  {
    if w != [] {
      AtIndex(s, i, w, 0);
      assert w == [w[0]] + w[1..];
      AtSplit(s, i, [w[0]], w[1..]);
      SkipsSpace(s, i + 1, w[1..]);
    }
  }

  /** What a number is not followed by. */
  predicate NumberEnds(s: Text, j: nat) {
    j >= |s| || !(IsDigit(s[j]) || s[j] == 0x2E || s[j] == 0x65 || s[j] == 0x45)
  }

  lemma {:induction false} ReadsDigits(s: Text, i: nat, d: Text)
    requires (forall x | 0 <= x < |d| :: 0x30 <= d[x] <= 0x39) && At(s, i, d) && (i + |d| == |s| || !IsDigit(s[i + |d|]))
    ensures DigitsEnd(s, i) == i + |d|
    decreases |d|
  {
    if d != [] {
      AtIndex(s, i, d, 0);
      assert d == [d[0]] + d[1..];
      AtSplit(s, i, [d[0]], d[1..]);
      ReadsDigits(s, i + 1, d[1..]);
    }
  }

  lemma {:induction false} ReadsInt(s: Text, i: nat, d: Text)
    requires Digits(d) && (d[0] == 0x30 ==> |d| == 1) && At(s, i, d) && (i + |d| == |s| || !IsDigit(s[i + |d|]))
    ensures IntEnd(s, i) == Some(i + |d|)
  {
    hide DigitsEnd;
    AtIndex(s, i, d, 0);
    ReadsDigits(s, i, d);
  }

  lemma {:induction false} ReadsFrac(s: Text, i: nat, n: Numeral)
    requires NumeralOk(n) && At(s, i, FracText(n))
    requires i + |FracText(n)| == |s| || (!IsDigit(s[i + |FracText(n)|]) && s[i + |FracText(n)|] != 0x2E)
    ensures FracEnd(s, i) == Some(i + |FracText(n)|)
  {
    hide DigitsEnd, Digits, At;
    if n.frac.Some? {
      ReadsFraction(s, i, n.frac.value);
    } else {
      assert FracText(n) == [];
      AtInside(s, i, FracText(n));
    }
  }

  lemma {:induction false} ReadsFraction(s: Text, i: nat, d: Text)
    requires Digits(d) && At(s, i, [0x2E] + d) && (i + 1 + |d| == |s| || !IsDigit(s[i + 1 + |d|]))
    ensures i <= |s| && FracEnd(s, i) == Some(i + 1 + |d|)
  {
    hide DigitsEnd, At;
    AtSplit(s, i, [0x2E], d);
    AtIndex(s, i + 1, d, 0);
    AtByte(s, i, 0x2E);
    ReadsDigits(s, i + 1, d);
  }

  function SignText(e: Exponent): Text { match e.sign case Some(plus) => [if plus then 0x2B else 0x2D] case None => [] }

  lemma {:induction false} ExpParts(s: Text, i: nat, e: Exponent)
    requires Digits(e.digits) && At(s, i, ExpText(e))
    ensures i < |s| && (s[i] == 101 || s[i] == 69)
    ensures var d := i + 1 + |SignText(e)|;
            && At(s, d, e.digits) && d < |s| && IsDigit(s[d]) && i + |ExpText(e)| == d + |e.digits|
            && (i + 1 < |s| && (s[i + 1] == 43 || s[i + 1] == 45) <==> SignText(e) != [])
  {
    hide At;
    var mark := [if e.capital then 0x45 else 0x65];
    var sign := SignText(e);
    assert ExpText(e) == mark + sign + e.digits;
    AtSplit(s, i, mark + sign, e.digits);
    AtSplit(s, i, mark, sign);
    AtIndex(s, i, mark, 0);
    AtIndex(s, i + 1 + |sign|, e.digits, 0);
    if sign != [] {
      AtIndex(s, i + 1, sign, 0);
    }
  }

  lemma {:induction false} ReadsExp(s: Text, i: nat, e: Option<Exponent>)
    requires e.Some? ==> Digits(e.value.digits)
    requires var y := if e.Some? then ExpText(e.value) else [];
             At(s, i, y) && NumberEnds(s, i + |y|)
    ensures ExpEnd(s, i) == Some(i + |if e.Some? then ExpText(e.value) else []|)
  {
    hide DigitsEnd, ExpText, SignText;
    if e.Some? {
      hide At;
      ExpParts(s, i, e.value);
      var d := i + 1 + |SignText(e.value)|;
      SignSize(e.value);
      AtInside(s, d, e.value.digits);
      ReadsDigits(s, d, e.value.digits);
    }
  }

  lemma {:induction false} SignSize(e: Exponent)
    ensures |SignText(e)| <= 1
  {
  }

  function MinusText(n: Numeral): Text { if n.minus then [0x2D] else [] }

  function ExpOf(n: Numeral): Text { if n.exp.Some? then ExpText(n.exp.value) else [] }

  lemma {:induction false} NumeralParts(s: Text, i: nat, n: Numeral)
    requires At(s, i, NumeralText(n))
    ensures var a := i + |MinusText(n)|;
            var b := a + |n.whole|;
            var c := b + |FracText(n)|;
            && At(s, i, MinusText(n)) && At(s, a, n.whole) && At(s, b, FracText(n)) && At(s, c, ExpOf(n))
            && i + |NumeralText(n)| == c + |ExpOf(n)|
  {
    hide At, FracText, ExpText;
    var minus := MinusText(n);
    AtSplit(s, i, minus + n.whole + FracText(n), ExpOf(n));
    AtSplit(s, i, minus + n.whole, FracText(n));
    AtSplit(s, i, minus, n.whole);
  }

  lemma {:induction false} ReadsNumber(s: Text, i: nat, n: Numeral)
    requires NumeralOk(n) && At(s, i, NumeralText(n)) && NumberEnds(s, i + |NumeralText(n)|)
    ensures i < |s| && StartsNumber(s[i]) && NumberEnd(s, i) == Some(i + |NumeralText(n)|)
  {
    hide IntEnd, FracEnd, ExpEnd, NumberEnds, At, FracText, ExpText, NumeralText;
    var a := i + |MinusText(n)|;
    var b := a + |n.whole|;
    var c := b + |FracText(n)|;
    NumeralParts(s, i, n);
    AtIndex(s, a, n.whole, 0);
    AtByte(s, i, 0x2D);
    AtInside(s, b, FracText(n));
    AtInside(s, c, ExpOf(n));
    AfterExponent(s, c, n.exp);
    ReadsExp(s, c, n.exp);
    AfterFraction(s, b, n);
    ReadsFrac(s, b, n);
    ReadsInt(s, a, n.whole);
  }

  lemma {:induction false} AtInside(s: Text, i: nat, y: Text)
    requires At(s, i, y)
    ensures i + |y| <= |s|
  {
  }

  lemma {:induction false} AfterExponent(s: Text, c: nat, e: Option<Exponent>)
    requires var y := if e.Some? then ExpText(e.value) else [];
             At(s, c, y) && NumberEnds(s, c + |y|)
    ensures c == |s| || (c < |s| && !IsDigit(s[c]) && s[c] != 0x2E)
  {
    if e.Some? {
      AtIndex(s, c, ExpText(e.value), 0);
    }
  }

  lemma {:induction false} AfterFraction(s: Text, b: nat, n: Numeral)
    requires At(s, b, FracText(n))
    requires var c := b + |FracText(n)|;
             c == |s| || (c < |s| && !IsDigit(s[c]) && s[c] != 0x2E)
    ensures b == |s| || (b < |s| && !IsDigit(s[b]))
  {
    if n.frac.Some? {
      AtIndex(s, b, FracText(n), 0);
    }
  }

  // ----- strings -----

  lemma {:induction false} ReadsEscape(s: Text, i: nat, t: Text)
    requires At(s, i, t) && EscapeMeans(t).Some?
    ensures i < |s| && s[i] == BACKSLASH && EscapeLength(s, i) == |t|
  {
    hide UnitAt, HexAt, HexDigits, Utf8;
    EscapeSizes(t);
    AtIndex(s, i, t, 0);
    AtIndex(s, i, t, 1);
    if |t| >= 6 {
      ReadsUnit(s, i + 2, if |t| == 6 then t[2..] else t[..6][2..]) by {
        assert t == t[..2] + t[2..6] + t[6..];
        AtSplit(s, i, t[..2] + t[2..6], t[6..]);
        AtSplit(s, i, t[..2], t[2..6]);
        assert |t| == 6 ==> t[2..] == t[2..6];
        assert t[..6][2..] == t[2..6];
      }
    }
    if |t| == 12 {
      AtIndex(s, i, t, 6);
      AtIndex(s, i, t, 7);
      assert t[6..][0] == t[6] && t[6..][1] == t[7];
      ReadsUnit(s, i + 8, t[6..][2..]) by {
        assert t == t[..8] + t[8..] && t[6..][2..] == t[8..];
        AtSplit(s, i, t[..8], t[8..]);
      }
    }
  }

  lemma {:induction false} LastHex(t: Text)
    requires t != [] && HexDigits(t).Some?
    ensures var front, b := t[..|t| - 1], t[|t| - 1];
            HexDigits(front).Some? && IsHex(b) && HexDigits(t).value == 16 * HexDigits(front).value + Nibble(b)
  {
  }

  lemma {:induction false} NoHex()
    ensures HexDigits([]) == Some(0)
  {
  }

  lemma {:induction false} ReadsUnit(s: Text, i: nat, d: Text)
    requires |d| == 4 && At(s, i, d) && HexDigits(d).Some?
    ensures HexAt(s, i) && UnitAt(s, i) == HexDigits(d).value
  {
    hide At, HexDigits, Nibble;
    LastHex(d);
    LastHex(d[..3]);
    LastHex(d[..3][..2]);
    LastHex(d[..3][..2][..1]);
    NoHex();
    assert d[..3][..2][..1][..0] == [];
    AtIndex(s, i, d, 0);
    AtIndex(s, i, d, 1);
    AtIndex(s, i, d, 2);
    AtIndex(s, i, d, 3);
  }

  /** The recognizer finds the closing quote of a spelled string. */
  lemma {:induction false} ReadsString(s: Text, i: nat, chs: seq<Ch>)
    requires ChsOk(chs) && At(s, i, Written(chs) + [0x22])
    ensures StringEnd(s, i) == Some(i + |Written(chs)| + 1)
    decreases |chs|
  {
    hide EscapeMeans, EscapeLength;
    AtSplit(s, i, Written(chs), [0x22]);
    if chs == [] {
      AtByte(s, i, 0x22);
    } else {
      var c, rest := chs[0], Written(chs[1..]);
      assert ChOk(c);
      assert WrittenOne(c) + rest + [0x22] == WrittenOne(c) + (rest + [0x22]);
      AtSplit(s, i, WrittenOne(c), rest + [0x22]);
      if c.Esc? {
        ReadsEscape(s, i, c.written);
        EscapeSizes(c.written);
      } else {
        AtByte(s, i, c.b);
      }
      ReadsString(s, i + |WrittenOne(c)|, chs[1..]);
    }
  }

  // ----- values -----

  /** A value starts with a byte that is no white space and no closing bracket or brace. */
  lemma {:induction false} FirstOfYield(t: Tree)
    requires TreeOk(t)
    ensures Yield(t) != [] && !IsWs(Yield(t)[0]) && Yield(t)[0] != RBRACKET && Yield(t)[0] != RBRACE
  {
    hide Written, YieldItems, YieldFields, FracText, ExpText;
    if t.TNumber? {
      assert Yield(t)[0] == if t.numeral.minus then 0x2D else t.numeral.whole[0];
    }
  }

  /** After a value: the end, white space, or punctuation. */
  predicate ValueEnds(s: Text, j: nat) {
    j >= |s| || IsWs(s[j]) || s[j] == COMMA || s[j] == RBRACE || s[j] == RBRACKET
  }

  /** The recognizer finds the end of every derived value. */
  lemma {:induction false} ReadsValue(s: Text, i: nat, t: Tree)
    requires TreeOk(t) && At(s, i, Yield(t)) && ValueEnds(s, i + |Yield(t)|)
    ensures ValueEnd(s, i) == Some(i + |Yield(t)|)
    decreases t, 1
  {
    match t {
      case TArray(inside, items) => ReadsArray(s, i, t);
      case TObject(inside, fields) => ReadsObject(s, i, t);
      case _ => ReadsScalar(s, i, t);
    }
  }

  lemma {:induction false} ReadsScalar(s: Text, i: nat, t: Tree)
    requires !t.TArray? && !t.TObject? && TreeOk(t) && At(s, i, Yield(t)) && ValueEnds(s, i + |Yield(t)|)
    ensures ValueEnd(s, i) == Some(i + |Yield(t)|)
  {
    hide At, NumberEnd, StringEnd, LiteralEnd, SkipWs, MembersEnd, ItemsEnd, NumeralText, Written;
    match t {
      case TNull => ReadsWord(s, i, Ascii("null"), Yield(t));
      case TBool(b) => ReadsWord(s, i, if b then Ascii("true") else Ascii("false"), Yield(t));
      case TNumber(n) => ReadsNumber(s, i, n);
      case TString(chs) =>
        assert QuotedText(chs) == [0x22] + (Written(chs) + [0x22]);
        AtSplit(s, i, [0x22], Written(chs) + [0x22]);
        AtByte(s, i, 0x22);
        ReadsString(s, i + 1, chs);
    }
  }

  lemma {:induction false} ReadsWord(s: Text, i: nat, word: Text, y: Text)
    requires word == y && y != [] && At(s, i, y)
    ensures i < |s| && s[i] == word[0] && LiteralEnd(s, i, word) == Some(i + |y|)
  {
    AtIndex(s, i, y, 0);
  }

  lemma {:induction false} ReadsArray(s: Text, i: nat, t: Tree)
    requires t.TArray? && TreeOk(t) && At(s, i, Yield(t))
    ensures ValueEnd(s, i) == Some(i + |Yield(t)|)
    decreases t, 0
  {
    hide SkipWs, ItemsEnd, At, Space, YieldItems, MembersEnd, StringEnd, NumberEnd, LiteralEnd;
    var inner := if t.items == [] then t.inside else YieldItems(t.items);
    assert Yield(t) == [0x5B] + (inner + [0x5D]);
    AtSplit(s, i, [0x5B], inner + [0x5D]);
    AtByte(s, i, 0x5B);
    if t.items == [] {
      AtSplit(s, i + 1, inner, [0x5D]);
      AtByte(s, i + 1 + |inner|, 0x5D);
      SkipsSpace(s, i + 1, inner);
    } else {
      ReadsItems(s, i + 1, t.items);
      ItemsStart(s, i + 1, t.items);
    }
  }

  /** A non-empty list of items does not look like an empty one. */
  lemma {:induction false} ItemsStart(s: Text, i: nat, items: seq<Item>)
    requires items != [] && Space(items[0].before) && TreeOk(items[0].value) && At(s, i, YieldItems(items) + [0x5D])
    ensures SkipWs(s, i) == i + |items[0].before| < |s| && s[SkipWs(s, i)] != RBRACKET
    ensures At(s, i, items[0].before) && At(s, i + |items[0].before|, Yield(items[0].value))
  {
    hide SkipWs, At, Space, TreeOk, Yield;
    var it := items[0];
    var more := it.after + (if |items| == 1 then [] else [0x2C] + YieldItems(items[1..])) + [0x5D];
    assert YieldItems(items) + [0x5D] == it.before + (Yield(it.value) + more);
    AtSplit(s, i, it.before, Yield(it.value) + more);
    AtSplit(s, i + |it.before|, Yield(it.value), more);
    FirstOfYield(it.value);
    AtIndex(s, i + |it.before|, Yield(it.value), 0);
    SkipsSpace(s, i, it.before);
  }

  /** What follows an item: its white space, then a comma and the next items, or the bracket. */
  lemma {:induction false} AfterItem(s: Text, i: nat, items: seq<Item>)
    requires items != [] && Space(items[0].after) && At(s, i, YieldItems(items) + [0x5D])
    ensures var value := i + |items[0].before| + |Yield(items[0].value)|;
            var j := value + |items[0].after|;
            && value <= j < |s| && ValueEnds(s, value) && SkipWs(s, value) == j
            && (|items| == 1 ==> s[j] == RBRACKET && i + |YieldItems(items)| == j)
            && (|items| > 1 ==> s[j] == COMMA && At(s, j + 1, YieldItems(items[1..]) + [0x5D])
                                && i + |YieldItems(items)| == j + 1 + |YieldItems(items[1..])|)
  {
    hide SkipWs, At, Yield;
    var it := items[0];
    var lead := it.before + Yield(it.value);
    var rest := if |items| == 1 then [0x5D] else [0x2C] + (YieldItems(items[1..]) + [0x5D]);
    assert YieldItems(items) + [0x5D] == lead + (it.after + rest);
    var value := i + |lead|;
    AtSplit(s, i, lead, it.after + rest);
    AtSplit(s, value, it.after, rest);
    AtIndex(s, value + |it.after|, rest, 0);
    SkipsSpace(s, value, it.after);
    if it.after != [] {
      AtIndex(s, value, it.after, 0);
    }
    if |items| > 1 {
      AtSplit(s, value + |it.after|, [0x2C], YieldItems(items[1..]) + [0x5D]);
    }
  }

  lemma {:induction false} ReadsItems(s: Text, i: nat, items: seq<Item>)
    requires items != [] && At(s, i, YieldItems(items) + [0x5D])
    requires forall x | 0 <= x < |items| :: Space(items[x].before) && Space(items[x].after) && TreeOk(items[x].value)
    ensures i <= |s| && ItemsEnd(s, SkipWs(s, i)) == Some(i + |YieldItems(items)| + 1)
    decreases items, 0
  {
    hide SkipWs, At, Space, TreeOk, Yield, YieldItems, ValueEnd, ItemsEnd, ValueEnds;
    var it := items[0];
    ItemsStart(s, i, items);
    AfterItem(s, i, items);
    var start := i + |it.before|;
    var value := start + |Yield(it.value)|;
    var j := value + |it.after|;
    ReadsValue(s, start, it.value);
    ItemsStep(s, start, value);
    if |items| > 1 {
      ReadsItems(s, j + 1, items[1..]);
    }
  }

  lemma {:induction false} ReadsObject(s: Text, i: nat, t: Tree)
    requires t.TObject? && TreeOk(t) && At(s, i, Yield(t))
    ensures ValueEnd(s, i) == Some(i + |Yield(t)|)
    decreases t, 0
  {
    hide SkipWs, ItemsEnd, At, Space, YieldFields, MembersEnd, StringEnd, NumberEnd, LiteralEnd, ChsOk;
    var inner := if t.fields == [] then t.inside else YieldFields(t.fields);
    assert Yield(t) == [0x7B] + (inner + [0x7D]);
    AtSplit(s, i, [0x7B], inner + [0x7D]);
    AtByte(s, i, 0x7B);
    if t.fields == [] {
      AtSplit(s, i + 1, inner, [0x7D]);
      AtByte(s, i + 1 + |inner|, 0x7D);
      SkipsSpace(s, i + 1, inner);
    } else {
      ReadsFields(s, i + 1, t.fields);
      FieldsStart(s, i + 1, t.fields);
    }
  }

  predicate FieldOk(f: Field) {
    Space(f.before) && ChsOk(f.key) && Space(f.afterKey) && Space(f.beforeValue) && TreeOk(f.value) && Space(f.after)
  }

  /** What a field starts with, up to its value. */
  function KeyText(f: Field): Text { QuotedText(f.key) + f.afterKey + [0x3A] + f.beforeValue }

  function FieldTail(fields: seq<Field>): Text
    requires fields != []
  {
    if |fields| == 1 then [0x7D] else [0x2C] + (YieldFields(fields[1..]) + [0x7D])
  }

  lemma {:induction false} FieldsParts(s: Text, i: nat, fields: seq<Field>)
    requires fields != [] && At(s, i, YieldFields(fields) + [0x7D])
    ensures var f := fields[0];
            var k := i + |f.before|;
            var v := k + |KeyText(f)|;
            var value := v + |Yield(f.value)|;
            && At(s, i, f.before) && At(s, k, KeyText(f)) && At(s, v, Yield(f.value)) && At(s, value, f.after)
            && At(s, value + |f.after|, FieldTail(fields))
            && i + |YieldFields(fields)| + 1 == value + |f.after| + |FieldTail(fields)|
  {
    hide At, Yield, Written;
    var f, tail := fields[0], FieldTail(fields);
    var y := Yield(f.value);
    assert YieldFields(fields) + [0x7D] == f.before + (KeyText(f) + (y + (f.after + tail)));
    var k := i + |f.before|;
    AtSplit(s, i, f.before, KeyText(f) + (y + (f.after + tail)));
    AtSplit(s, k, KeyText(f), y + (f.after + tail));
    AtSplit(s, k + |KeyText(f)|, y, f.after + tail);
    AtSplit(s, k + |KeyText(f)| + |y|, f.after, tail);
  }

  lemma {:induction false} FieldsStart(s: Text, i: nat, fields: seq<Field>)
    requires fields != [] && Space(fields[0].before) && At(s, i, YieldFields(fields) + [0x7D])
    ensures SkipWs(s, i) == i + |fields[0].before| < |s| && s[SkipWs(s, i)] == QUOTE
  {
    hide SkipWs, At, Space, Yield, YieldFields, Written;
    FieldsParts(s, i, fields);
    var f := fields[0];
    AtIndex(s, i + |f.before|, KeyText(f), 0);
    SkipsSpace(s, i, f.before);
  }

  /** A key, its colon and the white space around it. */
  lemma {:induction false} ReadsKey(s: Text, k: nat, f: Field)
    requires ChsOk(f.key) && Space(f.afterKey) && Space(f.beforeValue) && TreeOk(f.value)
    requires At(s, k, KeyText(f)) && At(s, k + |KeyText(f)|, Yield(f.value))
    ensures k <= |s| && KeyEnd(s, k) == Some(k + |KeyText(f)|)
  {
    hide SkipWs, At, Space, TreeOk, Yield, Written, StringEnd;
    var quoted, w := QuotedText(f.key), Written(f.key) + [0x22];
    assert KeyText(f) == [0x22] + (w + (f.afterKey + ([0x3A] + f.beforeValue)));
    AtSplit(s, k, [0x22], w + (f.afterKey + ([0x3A] + f.beforeValue)));
    AtSplit(s, k + 1, w, f.afterKey + ([0x3A] + f.beforeValue));
    var key := k + 1 + |w|;
    AtSplit(s, key, f.afterKey, [0x3A] + f.beforeValue);
    var colon := key + |f.afterKey|;
    AtSplit(s, colon, [0x3A], f.beforeValue);
    AtByte(s, k, 0x22);
    AtByte(s, colon, 0x3A);
    ReadsString(s, k + 1, f.key);
    SkipsSpace(s, key, f.afterKey);
    FirstOfYield(f.value);
    AtIndex(s, k + |KeyText(f)|, Yield(f.value), 0);
    SkipsSpace(s, colon + 1, f.beforeValue);
  }

  lemma {:induction false} ReadsFields(s: Text, i: nat, fields: seq<Field>)
    requires fields != [] && At(s, i, YieldFields(fields) + [0x7D])
    requires forall x | 0 <= x < |fields| :: FieldOk(fields[x])
    ensures i <= |s| && MembersEnd(s, SkipWs(s, i)) == Some(i + |YieldFields(fields)| + 1)
    decreases fields, 0
  {
    hide SkipWs, At, Space, TreeOk, Yield, YieldFields, ValueEnd, MembersEnd, KeyEnd, KeyText, ChsOk;
    assert FieldOk(fields[0]);
    var f, tail := fields[0], FieldTail(fields);
    FieldsParts(s, i, fields);
    FieldsStart(s, i, fields);
    var k := i + |f.before|;
    var v := k + |KeyText(f)|;
    var value := v + |Yield(f.value)|;
    var j := value + |f.after|;
    ReadsKey(s, k, f);
    AtIndex(s, j, tail, 0);
    SkipsSpace(s, value, f.after);
    EndsHere(s, value, f.after, tail);
    ReadsValue(s, v, f.value);
    MembersStep(s, k, v, value);
    if |fields| > 1 {
      AtSplit(s, j, [0x2C], YieldFields(fields[1..]) + [0x7D]);
      ReadsFields(s, j + 1, fields[1..]);
    }
  }

  lemma {:induction false} EndsHere(s: Text, value: nat, after: Text, tail: Text)
    requires Space(after) && At(s, value, after) && At(s, value + |after|, tail)
    requires tail != [] && (tail[0] == COMMA || tail[0] == RBRACE || tail[0] == RBRACKET)
    ensures ValueEnds(s, value)
  {
    AtIndex(s, value + |after|, tail, 0);
    if after != [] {
      AtIndex(s, value, after, 0);
    }
  }

  // ----- whole texts -----

  /** `ws value ws`. */
  predicate Derives(before: Text, t: Tree, after: Text, s: Text) {
    Space(before) && TreeOk(t) && Space(after) && s == before + Yield(t) + after
  }

  /** Every text the grammar derives is accepted; an object's text is an object to the recognizer too. */
  lemma {:induction false} DerivedIsJson(before: Text, t: Tree, after: Text, s: Text)
    requires Derives(before, t, after, s)
    ensures IsJson(s) && (t.TObject? ==> ObjectJson(s)) && (t.TObject? && after == [] ==> ObjectText(s))
  {
    hide SkipWs, ValueEnd, Yield, TreeOk, Space, At;
    var i := |before|;
    var end := i + |Yield(t)|;
    WholeText(before, Yield(t), after);
    FirstOfYield(t);
    AtIndex(s, i, Yield(t), 0);
    SkipsSpace(s, 0, before);
    if after != [] {
      SpaceByte(after);
      AtIndex(s, end, after, 0);
    }
    ReadsValue(s, i, t);
    SkipsSpace(s, end, after);
    if t.TObject? {
      ObjectEnds(t);
    }
  }

  lemma {:induction false} WholeText(a: Text, b: Text, c: Text)
    ensures At(a + b + c, 0, a) && At(a + b + c, |a|, b) && At(a + b + c, |a| + |b|, c)
  {
    hide At;
    var s := a + b + c;
    assert At(s, 0, s) by { WholeIsThere(s); }
    AtSplit(s, 0, a + b, c);
    AtSplit(s, 0, a, b);
  }

  lemma {:induction false} WholeIsThere(s: Text)
    ensures At(s, 0, s)
  {
    assert s[0..0 + |s|] == s;
  }

  lemma {:induction false} SpaceByte(t: Text)
    requires Space(t) && t != []
    ensures IsWs(t[0])
  {
  }

  lemma {:induction false} ObjectEnds(t: Tree)
    requires t.TObject?
    ensures Yield(t) != [] && Yield(t)[0] == LBRACE && Yield(t)[|Yield(t)| - 1] == RBRACE
  {
    hide YieldFields;
  }

  // ----- and nothing else is accepted -----

  lemma {:induction false} SkippedIsSpace(s: Text, i: nat)
    requires i <= |s|
    ensures Space(s[i..SkipWs(s, i)])
  {
    hide SkipWs;
    var w := s[i..SkipWs(s, i)];
    forall x | 0 <= x < |w| ensures w[x] in {0x20, 0x09, 0x0A, 0x0D} {
      assert w[x] == s[i + x] && IsWs(s[i + x]);
    }
  }

  lemma {:induction false} ReadAreDigits(s: Text, i: nat)
    requires i <= |s|
    ensures forall x | i <= x < DigitsEnd(s, i) :: 0x30 <= s[x] <= 0x39
    decreases |s| - i
  {
    if i < |s| && IsDigit(s[i]) {
      ReadAreDigits(s, i + 1);
    }
  }

  lemma {:induction false} SliceIsDigits(s: Text, i: nat)
    requires i < |s| && IsDigit(s[i])
    ensures Digits(s[i..DigitsEnd(s, i)]) && s[i..DigitsEnd(s, i)][0] == s[i] && DigitsEnd(s, i) > i
  {
    ReadAreDigits(s, i);
  }

  lemma {:induction false} FracDerived(s: Text, i: nat) returns (frac: Option<Text>)
    requires i <= |s| && FracEnd(s, i).Some?
    ensures (frac.Some? ==> Digits(frac.value))
    ensures (if frac.Some? then [0x2E] + frac.value else []) == s[i..FracEnd(s, i).value]
  {
    hide DigitsEnd;
    if i < |s| && s[i] == 46 {
      SliceIsDigits(s, i + 1);
      frac := Some(s[i + 1..DigitsEnd(s, i + 1)]);
    } else {
      frac := None;
    }
  }

  lemma {:induction false} ExpLead(s: Text, i: nat, e: Exponent)
    requires i < |s| && s[i] == (if e.capital then 0x45 else 0x65)
    requires e.sign.Some? ==> i + 1 < |s| && s[i + 1] == if e.sign.value then 0x2B else 0x2D
    ensures var j := if e.sign.Some? then i + 2 else i + 1;
            ExpText(e) == s[i..j] + e.digits
  {
    if e.sign.Some? {
      assert s[i..i + 2] == [s[i]] + [s[i + 1]];
    } else {
      assert s[i..i + 1] == [s[i]] + [];
    }
  }

  lemma {:induction false} TwoSlices(s: Text, i: nat, j: nat, e: nat)
    requires i <= j <= e <= |s|
    ensures s[i..j] + s[j..e] == s[i..e]
  {
  }

  /** Where the digits of an exponent start. */
  function ExpDigits(s: Text, i: nat): nat
    requires i < |s|
  {
    if i + 1 < |s| && (s[i + 1] == 43 || s[i + 1] == 45) then i + 2 else i + 1
  }

  lemma {:induction false} ExpEndIs(s: Text, i: nat)
    requires i <= |s| && ExpEnd(s, i).Some?
    ensures i == |s| || !(s[i] == 101 || s[i] == 69) ==> ExpEnd(s, i).value == i
    ensures i < |s| && (s[i] == 101 || s[i] == 69) ==>
              var j := ExpDigits(s, i);
              j < |s| && IsDigit(s[j]) && ExpEnd(s, i).value == DigitsEnd(s, j)
  {
    hide DigitsEnd;
  }

  lemma {:induction false} ExpDerived(s: Text, i: nat) returns (exp: Option<Exponent>)
    requires i <= |s| && ExpEnd(s, i).Some?
    ensures (exp.Some? ==> Digits(exp.value.digits))
    ensures (if exp.Some? then ExpText(exp.value) else []) == s[i..ExpEnd(s, i).value]
  {
    hide DigitsEnd, ExpEnd, ExpText, Digits;
    ExpEndIs(s, i);
    if i < |s| && (s[i] == 101 || s[i] == 69) {
      var j := ExpDigits(s, i);
      var end := DigitsEnd(s, j);
      SliceIsDigits(s, j);
      var e := Exponent(s[i] == 69, if j == i + 2 then Some(s[i + 1] == 43) else None, s[j..end]);
      exp := Some(e);
      ExpLead(s, i, e);
      TwoSlices(s, i, j, end);
    } else {
      exp := None;
    }
  }

  lemma {:induction false} IntDerived(s: Text, i: nat)
    requires i <= |s| && IntEnd(s, i).Some?
    ensures var d := s[i..IntEnd(s, i).value];
            Digits(d) && (d[0] == 0x30 ==> |d| == 1)
  {
    hide DigitsEnd;
    SliceIsDigits(s, i);
  }

  lemma {:induction false} NumeralTextIs(n: Numeral)
    ensures NumeralText(n) == MinusText(n) + n.whole + FracText(n) + ExpOf(n)
  {
    hide FracText, ExpText;
  }

  lemma {:induction false} NumberDerived(s: Text, i: nat) returns (n: Numeral)
    requires i < |s| && NumberEnd(s, i).Some?
    ensures NumeralOk(n) && NumeralText(n) == s[i..NumberEnd(s, i).value]
  {
    hide IntEnd, FracEnd, ExpEnd, ExpText, Digits, NumeralText;
    var a := if s[i] == 45 then i + 1 else i;
    var b := IntEnd(s, a).value;
    var c := FracEnd(s, b).value;
    var end := ExpEnd(s, c).value;
    IntDerived(s, a);
    var frac := FracDerived(s, b);
    var exp := ExpDerived(s, c);
    n := Numeral(s[i] == 45, s[a..b], frac, exp);
    NumeralTextIs(n);
    assert MinusText(n) == s[i..a];
    assert FracText(n) == s[b..c];
    assert ExpOf(n) == s[c..end];
    FourSlices(s, i, a, b, c, end);
  }

  lemma {:induction false} FourSlices(s: Text, i: nat, a: nat, b: nat, c: nat, e: nat)
    requires i <= a <= b <= c <= e <= |s|
    ensures s[i..a] + s[a..b] + s[b..c] + s[c..e] == s[i..e]
  {
  }

  lemma {:induction false} ScalarDerived(s: Text, i: nat) returns (t: Tree)
    requires i < |s| && s[i] != LBRACE && s[i] != LBRACKET && ValueEnd(s, i).Some?
    ensures TreeOk(t) && Yield(t) == s[i..ValueEnd(s, i).value]
  {
    hide NumberEnd, StringEnd, Written, NumeralText;
    if s[i] == QUOTE {
      var chs := Lex.StringSpelled(s, i + 1);
      t := TString(chs);
      var end := StringEnd(s, i + 1).value;
      assert s[i..end] == [0x22] + s[i + 1..end];
      Assoc([0x22], Written(chs), [0x22]);
    } else if s[i] == 116 {
      t := TBool(true);
      assert Ascii("true") == Yield(t);
    } else if s[i] == 102 {
      t := TBool(false);
      assert Ascii("false") == Yield(t);
    } else if s[i] == 110 {
      t := TNull;
      assert Ascii("null") == Yield(t);
    } else {
      var n := NumberDerived(s, i);
      t := TNumber(n);
    }
  }

  /** Every value the recognizer finds has a derivation. */
  lemma {:induction false} ValueDerived(s: Text, i: nat) returns (t: Tree)
    requires i <= |s| && ValueEnd(s, i).Some?
    ensures i < |s| && TreeOk(t) && Yield(t) == s[i..ValueEnd(s, i).value] && (s[i] == LBRACE <==> t.TObject?)
    decreases |s| - i, 1
  {
    hide ValueEnd, Yield, TreeOk;
    ValueEndInside(s, i);
    if s[i] == LBRACE {
      t := ObjectDerived(s, i);
    } else if s[i] == LBRACKET {
      t := ArrayDerived(s, i);
    } else {
      t := ScalarDerived(s, i);
      assert Yield(t)[0] == s[i];
      ScalarIsNoObject(t, s[i]);
    }
  }

  lemma {:induction false} Bracketed(s: Text, i: nat, j: nat, l: byte, r: byte)
    requires i < j < |s| && s[i] == l && s[j] == r
    ensures s[i..j + 1] == [l] + s[i + 1..j] + [r]
  {
  }

  lemma {:induction false} Headed(s: Text, i: nat, end: nat, l: byte, y: Text, r: byte)
    requires i < end <= |s| && s[i] == l && s[i + 1..end] == y + [r]
    ensures s[i..end] == [l] + y + [r]
  {
    assert s[i..end] == [l] + s[i + 1..end];
    Assoc([l], y, [r]);
  }

  lemma {:induction false} ObjectDerived(s: Text, i: nat) returns (t: Tree)
    requires i < |s| && s[i] == LBRACE && ValueEnd(s, i).Some?
    ensures t.TObject? && TreeOk(t) && Yield(t) == s[i..ValueEnd(s, i).value]
    decreases |s| - i, 0
  {
    hide SkipWs, MembersEnd, ItemsEnd, StringEnd, NumberEnd, LiteralEnd, Space, YieldFields;
    var j, end := SkipWs(s, i + 1), ValueEnd(s, i).value;
    SkippedIsSpace(s, i + 1);
    NoSpace();
    if j < |s| && s[j] == RBRACE {
      t := TObject(s[i + 1..j], []);
      Bracketed(s, i, j, 0x7B, 0x7D);
    } else {
      var fields := FieldsDerived(s, i + 1, j);
      t := TObject([], fields);
      assert TreeOk(t) by {
        forall x | 0 <= x < |fields| ensures FieldOk(fields[x]) {
        }
      }
      Headed(s, i, end, 0x7B, YieldFields(fields), 0x7D);
    }
  }

  lemma {:induction false} ArrayDerived(s: Text, i: nat) returns (t: Tree)
    requires i < |s| && s[i] == LBRACKET && ValueEnd(s, i).Some?
    ensures t.TArray? && TreeOk(t) && Yield(t) == s[i..ValueEnd(s, i).value]
    decreases |s| - i, 0
  {
    hide SkipWs, MembersEnd, ItemsEnd, StringEnd, NumberEnd, LiteralEnd, Space, YieldItems;
    var j, end := SkipWs(s, i + 1), ValueEnd(s, i).value;
    SkippedIsSpace(s, i + 1);
    NoSpace();
    if j < |s| && s[j] == RBRACKET {
      t := TArray(s[i + 1..j], []);
      Bracketed(s, i, j, 0x5B, 0x5D);
    } else {
      var items := ItemsDerived(s, i + 1, j);
      t := TArray([], items);
      assert TreeOk(t) by {
        forall x | 0 <= x < |items| ensures ItemOk(items[x]) {
        }
      }
      Headed(s, i, end, 0x5B, YieldItems(items), 0x5D);
    }
  }

  lemma {:induction false} NoSpace()
    ensures Space([])
  {
  }

  lemma {:induction false} ScalarIsNoObject(t: Tree, b: byte)
    requires Yield(t) != [] && Yield(t)[0] == b && b != LBRACE
    ensures !t.TObject?
  {
    hide YieldFields;
  }

  predicate ItemOk(it: Item) { Space(it.before) && Space(it.after) && TreeOk(it.value) }

  lemma {:induction false} ItemsText(it: Item, rest: seq<Item>)
    ensures var lead := it.before + Yield(it.value) + it.after;
            YieldItems([it] + rest) + [0x5D] == lead + (if rest == [] then [0x5D] else [0x2C] + (YieldItems(rest) + [0x5D]))
  {
    hide Yield;
    assert ([it] + rest)[1..] == rest;
    var lead := it.before + Yield(it.value) + it.after;
    if rest == [] {
      assert lead + [] == lead;
    } else {
      Assoc([0x2C], YieldItems(rest), [0x5D]);
      Assoc(lead, [0x2C] + YieldItems(rest), [0x5D]);
    }
  }

  /** A stretch in three parts, then one byte and the rest. */
  lemma {:induction false} Slices(s: Text, a: nat, i: nat, value: nat, j: nat, end: nat, c: byte)
    requires a <= i <= value <= j < end <= |s| && s[j] == c
    ensures s[a..end] == s[a..i] + s[i..value] + s[value..j] + ([c] + s[j + 1..end])
  {
    assert s[a..end] == s[a..j] + s[j..end] && s[j..end] == [c] + s[j + 1..end];
    assert s[a..j] == s[a..i] + s[i..value] + s[value..j];
  }

  /** A list of items from the value at `i` on, white space from `a` before it. */
  lemma {:induction false} ItemsDerived(s: Text, a: nat, i: nat) returns (items: seq<Item>)
    requires a <= i <= |s| && Space(s[a..i]) && ItemsEnd(s, i).Some?
    ensures items != [] && (forall x | 0 <= x < |items| :: ItemOk(items[x]))
    ensures YieldItems(items) + [0x5D] == s[a..ItemsEnd(s, i).value]
    decreases |s| - i, 2
  {
    hide SkipWs, ValueEnd, ItemsEnd, Space, TreeOk, Yield, YieldItems;
    ItemsHead(s, i);
    var value := ValueEnd(s, i).value;
    var j, end := SkipWs(s, value), ItemsEnd(s, i).value;
    ItemsStep(s, i, value);
    var t := ValueDerived(s, i);
    SkippedIsSpace(s, value);
    var it := Item(s[a..i], t, s[value..j]);
    var rest := [];
    if s[j] == COMMA {
      var k := SkipWs(s, j + 1);
      SkippedIsSpace(s, j + 1);
      rest := ItemsDerived(s, j + 1, k);
    } else {
      assert [0x5D] + s[j + 1..end] == [0x5D];
    }
    items := [it] + rest;
    ItemsText(it, rest);
    Slices(s, a, i, value, j, end, s[j]);
  }

  lemma {:induction false} KeyDerived(s: Text, i: nat) returns (key: seq<Ch>, after: Text, before: Text)
    requires i <= |s| && KeyEnd(s, i).Some?
    ensures ChsOk(key) && Space(after) && Space(before)
    ensures QuotedText(key) + after + [0x3A] + before == s[i..KeyEnd(s, i).value]
  {
    hide SkipWs, StringEnd, Written, Space, ChsOk;
    var q := StringEnd(s, i + 1).value;
    var colon, v := SkipWs(s, q), KeyEnd(s, i).value;
    key := Lex.StringSpelled(s, i + 1);
    after, before := s[q..colon], s[colon + 1..v];
    SkippedIsSpace(s, q);
    SkippedIsSpace(s, colon + 1);
    assert s[i..q] == [0x22] + s[i + 1..q];
    Assoc([0x22], Written(key), [0x22]);
    assert s[i..v] == s[i..q] + s[q..colon] + [0x3A] + s[colon + 1..v];
  }

  lemma {:induction false} FieldsText(f: Field, rest: seq<Field>, k: Text, y: Text)
    requires QuotedText(f.key) + f.afterKey + [0x3A] + f.beforeValue == k && Yield(f.value) == y
    ensures var lead := f.before + k + y + f.after;
            YieldFields([f] + rest) + [0x7D] == lead + (if rest == [] then [0x7D] else [0x2C] + (YieldFields(rest) + [0x7D]))
  {
    hide Yield, QuotedText;
    assert ([f] + rest)[1..] == rest;
    FieldLead(f, k, y);
    var lead := f.before + k + y + f.after;
    if rest == [] {
      assert lead + [] == lead;
    } else {
      Assoc([0x2C], YieldFields(rest), [0x7D]);
      Assoc(lead, [0x2C] + YieldFields(rest), [0x7D]);
    }
  }

  lemma {:induction false} FieldsDerived(s: Text, a: nat, i: nat) returns (fields: seq<Field>)
    requires a <= i <= |s| && Space(s[a..i]) && MembersEnd(s, i).Some?
    ensures fields != [] && (forall x | 0 <= x < |fields| :: FieldOk(fields[x]))
    ensures YieldFields(fields) + [0x7D] == s[a..MembersEnd(s, i).value]
    decreases |s| - i, 2
  {
    hide SkipWs, ValueEnd, KeyEnd, MembersEnd, Space, TreeOk, Yield, ChsOk, QuotedText, YieldFields;
    MembersHead(s, i);
    var v := KeyEnd(s, i).value;
    var value := ValueEnd(s, v).value;
    var j, end := SkipWs(s, value), MembersEnd(s, i).value;
    MembersStep(s, i, v, value);
    var key, after, before := KeyDerived(s, i);
    var t := ValueDerived(s, v);
    SkippedIsSpace(s, value);
    var f := Field(s[a..i], key, after, before, t, s[value..j]);
    var rest := [];
    if s[j] == COMMA {
      var k := SkipWs(s, j + 1);
      SkippedIsSpace(s, j + 1);
      rest := FieldsDerived(s, j + 1, k);
    } else {
      assert [0x7D] + s[j + 1..end] == [0x7D];
    }
    fields := [f] + rest;
    FieldsText(f, rest, s[i..v], s[v..value]);
    Slices(s, i, v, value, j, end, s[j]);
    assert s[a..end] == s[a..i] + s[i..end];
    Regroup(s[a..i], s[i..v], s[v..value], s[value..j], [s[j]] + s[j + 1..end]);
  }

  lemma {:induction false} Regroup(a: Text, b: Text, c: Text, d: Text, e: Text)
    ensures a + (b + c + d + e) == a + b + c + d + e
  {
  }

  lemma {:induction false} FieldLead(f: Field, k: Text, y: Text)
    requires QuotedText(f.key) + f.afterKey + [0x3A] + f.beforeValue == k && Yield(f.value) == y
    ensures f.before + QuotedText(f.key) + f.afterKey + [0x3A] + f.beforeValue + Yield(f.value) + f.after
            == f.before + k + y + f.after
  {
    hide Yield, QuotedText;
    assert f.before + QuotedText(f.key) + f.afterKey + [0x3A] + f.beforeValue == f.before + k;
  }

  /** The recognizer is exact: it accepts a text if and only if the grammar of RFC 8259 derives it, and
      takes it for an object exactly when the derivation is one. */
  lemma {:induction false} JsonIffDerived(s: Text)
    ensures IsJson(s) <==> exists before, t, after :: Derives(before, t, after, s)
    ensures ObjectJson(s) <==> exists before, t, after :: Derives(before, t, after, s) && t.TObject?
  {
    hide SkipWs, ValueEnd, Derives;
    if IsJson(s) {
      var i := SkipWs(s, 0);
      var end := ValueEnd(s, i).value;
      var t := ValueDerived(s, i);
      SkippedIsSpace(s, 0);
      SkippedIsSpace(s, end);
      assert Derives(s[0..i], t, s[end..|s|], s) by {
        WholeDerived(s, i, end, t);
      }
      ValueEndInside(s, i);
    }
    forall before, t, after | Derives(before, t, after, s) ensures IsJson(s) && (t.TObject? ==> ObjectJson(s)) {
      DerivedIsJson(before, t, after, s);
    }
  }

  lemma {:induction false} WholeDerived(s: Text, i: nat, end: nat, t: Tree)
    requires i <= end <= |s| && Space(s[0..i]) && TreeOk(t) && Yield(t) == s[i..end] && Space(s[end..|s|])
    ensures Derives(s[0..i], t, s[end..|s|], s)
  {
    assert s == s[0..i] + s[i..end] + s[end..|s|];
  }
}
