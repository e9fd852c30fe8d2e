/** What a JSON string stands for (section 7 of RFC 8259): a reader of its own, and that printing a string
    and reading it back gives the string. */
module JsonReader {
  import opened Bytes
  import opened JsonString

  // ----- the reader -----

  function HexDigits(t: Text): Option<nat> {
    if t == [] then Some(0)
    else
      var last, front := t[|t| - 1], HexDigits(t[..|t| - 1]);
      var digit := if 48 <= last <= 57 then Some(last - 48)
                   else if 97 <= last <= 102 then Some(last - 87)
                   else if 65 <= last <= 70 then Some(last - 55)
                   else None;
      if front.None? || digit.None? then None else Some(16 * front.value + digit.value)
  }

  /** The UTF-8 encoding of a code point (section 3 of RFC 3629). */
  function Utf8(c: nat): Text
    requires c < 0x110000
  {
    if c < 0x80 then [c]
    else if c < 0x800 then [0xC0 + c / 64, 0x80 + c % 64]
    else if c < 0x10000 then [0xE0 + c / 4096, 0x80 + c / 64 % 64, 0x80 + c % 64]
    else [0xF0 + c / 262144, 0x80 + c / 4096 % 64, 0x80 + c / 64 % 64, 0x80 + c % 64]
  }

  /** The code unit of `\uXXXX`. */
  function CodeUnit(t: Text): Option<nat>
    requires |t| == 6
  {
    if t[0] == 92 && t[1] == 117 then HexDigits(t[2..]) else None
  }

  /** What one escape stands for. */
  function EscapeMeans(t: Text): Option<Text> {
    if |t| == 2 && t[0] == 92 then
      if t[1] == 34 then Some([0x22])
      else if t[1] == 92 then Some([0x5C])
      else if t[1] == 47 then Some([0x2F])
      else if t[1] == 98 then Some([0x08])
      else if t[1] == 102 then Some([0x0C])
      else if t[1] == 110 then Some([0x0A])
      else if t[1] == 114 then Some([0x0D])
      else if t[1] == 116 then Some([0x09])
      else None
    else if |t| == 6 then
      match CodeUnit(t)
      case Some(c) => if c < 0x10000 && !(0xD800 <= c < 0xE000) then Some(Utf8(c)) else None
      case None => None
    else if |t| == 12 then
      match (CodeUnit(t[..6]), CodeUnit(t[6..]))
      case (Some(hi), Some(lo)) =>
        if 0xD800 <= hi < 0xDC00 <= lo < 0xE000
        then Some(Utf8(0x10000 + (hi - 0xD800) * 1024 + (lo - 0xDC00))) else None
      case _ => None
    else None
  }

  /** How many bytes the escape at the start of `s` has; 0 if there is none. */
  function EscapeSize(s: Text): (n: nat)
    ensures n > 0 ==> n <= |s| && EscapeMeans(s[..n]).Some?
  {
    if |s| >= 2 && EscapeMeans(s[..2]).Some? then 2
    else if |s| >= 6 && EscapeMeans(s[..6]).Some? then 6
    else if |s| >= 12 && EscapeMeans(s[..12]).Some? then 12
    else 0
  }

  /** The string written between two quotes; none if that is not the inside of a JSON string. */
  function Unescape(s: Text): Option<Text>
    decreases |s|
  {
    if s == [] then Some([])
    else if s[0] != 92 then
      if s[0] < 0x20 || s[0] == 34 then None
      else
        match Unescape(s[1..])
        case Some(rest) => Some([s[0]] + rest)
        case None => None
    else
      var n := EscapeSize(s);
      if n == 0 then None
      else
        match Unescape(s[n..])
        case Some(rest) => Some(EscapeMeans(s[..n]).value + rest)
        case None => None
  }

  // ----- facts about escapes -----

  lemma {:induction false} EscapeSizes(t: Text)
    requires EscapeMeans(t).Some?
    ensures |t| in {2, 6, 12} && t[0] == 92 && EscapeMeans(t).value != [] && (|t| == 2 <==> t[1] != 117)
  {
  }

  /** An escape at the start of a text is read as that escape. */
  lemma {:induction false} EscapeIsSeen(t: Text, rest: Text)
    requires EscapeMeans(t).Some?
    ensures EscapeSize(t + rest) == |t| && (t + rest)[..|t|] == t && (t + rest)[|t|..] == rest
  {
    hide HexDigits;
    var s := t + rest;
    EscapeSizes(t);
    assert s[..|t|] == t;
    if |t| > 2 {
      assert s[..2][1] == 117;
    }
    if |t| == 12 {
      assert s[..6] == t[..6];
    }
  }

  lemma {:induction false} HexPair(a: nat, b: nat)
    requires a < 16 && b < 16
    ensures HexDigits([48, 48, HexDigit(a), HexDigit(b)]) == Some(16 * a + b)
  {
    var t := [48, 48, HexDigit(a), HexDigit(b)];
    assert t[..3] == [48, 48, HexDigit(a)] && t[..3][..2] == [48, 48] && t[..3][..2][..1] == [48];
    assert t[..3][..2][..1][..0] == [];
    assert HexDigits([48]) == Some(0) && HexDigits([48, 48]) == Some(0);
    assert HexDigits(t[..3]) == Some(a);
  }

  /** What the printer writes for a byte stands for that byte. */
  lemma {:induction false} PrintedEscape(b: byte)
    requires MustEscape(b)
    ensures EscapeMeans(EscapeByte(b)) == Some([b])
  {
    var t := EscapeByte(b);
    if |t| == 6 {
      assert t[2..] == [48, 48, HexDigit(b / 16), HexDigit(b % 16)];
      HexPair(b / 16, b % 16);
    }
  }

  /** Printing a string and reading it back gives the string. */
  lemma {:induction false} UnescapeEscape(s: Text)
    ensures Unescape(Escape(s)) == Some(s)
  {
    hide EscapeByte, EscapeMeans, EscapeSize;
    if s != [] {
      UnescapeEscape(s[1..]);
      var t, rest := EscapeByte(s[0]), Escape(s[1..]);
      assert s == [s[0]] + s[1..];
      if MustEscape(s[0]) {
        PrintedEscape(s[0]);
        EscapeSizes(t);
        EscapeIsSeen(t, rest);
        assert (t + rest)[0] == t[0];
      } else {
        assert t == [s[0]] && (t + rest)[1..] == rest;
      }
    }
  }

  /** Every code point is written as well-formed UTF-8. */
  lemma {:induction false} Utf8IsValid(c: nat)
    requires c < 0x110000 && !(0xD800 <= c < 0xE000)
    ensures ValidUtf8(Utf8(c))
  {
    var t := Utf8(c);
    assert LeadLength(t) == |t|;
    assert t[|t|..] == [];
  }

  // ----- spelled strings -----

  /** One character of a string: a byte as it is, or an escape and the bytes it stands for. */
  datatype Ch = Raw(b: byte) | Esc(written: Text, means: Text)

  predicate ChOk(c: Ch) {
    match c
    case Raw(b) => !MustEscape(b)
    case Esc(t, m) => EscapeMeans(t) == Some(m)
  }

  predicate ChsOk(chs: seq<Ch>) { forall i | 0 <= i < |chs| :: ChOk(chs[i]) }

  function WrittenOne(c: Ch): Text { if c.Raw? then [c.b] else c.written }

  function MeansOne(c: Ch): Text { if c.Raw? then [c.b] else c.means }

  function Written(chs: seq<Ch>): Text { if chs == [] then [] else WrittenOne(chs[0]) + Written(chs[1..]) }

  function Means(chs: seq<Ch>): Text { if chs == [] then [] else MeansOne(chs[0]) + Means(chs[1..]) }

  lemma {:induction false} SpellingConcat(a: seq<Ch>, b: seq<Ch>)
    ensures Written(a + b) == Written(a) + Written(b) && Means(a + b) == Means(a) + Means(b)
  {
    hide WrittenOne, MeansOne;
    if a == [] {
      assert a + b == b;
    } else {
      SpellingConcat(a[1..], b);
      assert (a + b)[1..] == a[1..] + b && (a + b)[0] == a[0];
      Assoc(WrittenOne(a[0]), Written(a[1..]), Written(b));
      Assoc(MeansOne(a[0]), Means(a[1..]), Means(b));
    }
  }

  /** A spelled string is read as what it means. */
  lemma {:induction false} SpellingReads(chs: seq<Ch>)
    requires ChsOk(chs)
    ensures Unescape(Written(chs)) == Some(Means(chs))
  {
    hide EscapeMeans, EscapeSize;
    if chs != [] {
      SpellingReads(chs[1..]);
      var c, rest := chs[0], Written(chs[1..]);
      assert ChOk(c);
      if c.Esc? {
        EscapeSizes(c.written);
        EscapeIsSeen(c.written, rest);
        assert (c.written + rest)[0] == 92;
      } else {
        assert ([c.b] + rest)[1..] == rest;
      }
    }
  }

  /** And whatever is read was spelled so. */
  lemma {:induction false} ReadIsSpelled(s: Text) returns (chs: seq<Ch>)
    requires Unescape(s).Some?
    ensures ChsOk(chs) && Written(chs) == s && Means(chs) == Unescape(s).value
    decreases |s|
  {
    hide EscapeMeans, EscapeSize;
    if s == [] {
      chs := [];
    } else {
      var n := if s[0] != 92 then 1 else EscapeSize(s);
      var c := if s[0] != 92 then Raw(s[0]) else Esc(s[..n], EscapeMeans(s[..n]).value);
      var rest := ReadIsSpelled(s[n..]);
      chs := [c] + rest;
      assert chs[1..] == rest && s == s[..n] + s[n..];
      assert s[0] != 92 ==> s[..1] == [s[0]];
    }
  }
}
