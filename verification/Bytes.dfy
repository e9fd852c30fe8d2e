/** Text as the gateway stores it: UTF-8 code units.  Every `String`/`&str` whose
    bytes matter (payloads, deltas, tokens, originals) is a `Text`. */
module Bytes {
  type byte = b: int | 0 <= b < 256
  type Text = seq<byte>

  datatype Option<+T> = None | Some(value: T)
  datatype Result<+T> = Ok(value: T) | Err(error: string)

  const LF: byte := 10
  const CR: byte := 13
  const SPACE: byte := 32
  const QUOTE: byte := 34
  const COMMA: byte := 44
  const ZERO: byte := 48
  const COLON: byte := 58
  const LT: byte := 60
  const GT: byte := 62
  const LBRACKET: byte := 91
  const BACKSLASH: byte := 92
  const RBRACKET: byte := 93
  const UNDERSCORE: byte := 95
  const LBRACE: byte := 123
  const RBRACE: byte := 125

  predicate IsDigit(b: byte) { 48 <= b <= 57 }

  predicate IsAlnum(b: byte) { IsDigit(b) || 65 <= b <= 90 || 97 <= b <= 122 }

  /** The bytes of an ASCII string literal. */
  function Ascii(s: string): (t: Text)
    requires forall i | 0 <= i < |s| :: s[i] < '\U{80}'
    ensures |t| == |s|
    ensures forall i | 0 <= i < |s| :: t[i] == s[i] as int
  {
    seq(|s|, i requires 0 <= i < |s| => s[i] as int)
  }

  function FindByte(s: Text, b: byte, from: nat): (i: nat)
    requires from <= |s|
    ensures from <= i <= |s| && (i < |s| ==> s[i] == b)
    ensures forall x | from <= x < i :: s[x] != b
    decreases |s| - from
  {
    if from == |s| || s[from] == b then from else FindByte(s, b, from + 1)
  }

  function Concat(parts: seq<Text>): Text {
    if parts == [] then [] else parts[0] + Concat(parts[1..])
  }

  lemma {:induction false} Assoc<T>(a: seq<T>, b: seq<T>, c: seq<T>)
    ensures a + (b + c) == a + b + c
  {
  }

  lemma {:induction false} ConcatAppend(a: seq<Text>, b: seq<Text>)
    ensures Concat(a + b) == Concat(a) + Concat(b)
  {
    if a == [] {
      assert a + b == b;
    } else {
      var head := a[0];
      ConcatAppend(a[1..], b);
      assert (a + b)[1..] == a[1..] + b;
      assert Concat(a + b) == head + Concat((a + b)[1..]);
      Assoc(head, Concat(a[1..]), Concat(b));
    }
  }

  lemma {:induction false} Reassociate(a: Text, b: Text, c: Text, d: Text)
    ensures a + (b + c + d) == a + b + c + d
  {
  }

  // ----- UTF-8 (RFC 3629, section 4) -----

  predicate IsContinuation(b: byte) { 0x80 <= b < 0xC0 }

  /** Length of the well-formed UTF-8 sequence `s` starts with; 0 if there is none. */
  function LeadLength(s: Text): (n: nat)
    ensures n <= |s| && n <= 4
  {
    if s == [] then 0
    else if s[0] < 0x80 then 1
    else if 0xC2 <= s[0] <= 0xDF then
      if |s| >= 2 && IsContinuation(s[1]) then 2 else 0
    else if 0xE0 <= s[0] <= 0xEF then
      if |s| >= 3 && IsContinuation(s[1]) && IsContinuation(s[2])
         && (s[0] == 0xE0 ==> 0xA0 <= s[1]) && (s[0] == 0xED ==> s[1] < 0xA0)
      then 3 else 0
    else if 0xF0 <= s[0] <= 0xF4 then
      if |s| >= 4 && IsContinuation(s[1]) && IsContinuation(s[2]) && IsContinuation(s[3])
         && (s[0] == 0xF0 ==> 0x90 <= s[1]) && (s[0] == 0xF4 ==> s[1] < 0x90)
      then 4 else 0
    else 0
  }

  predicate ValidUtf8(s: Text)
    decreases |s|
  {
    s == [] || (LeadLength(s) > 0 && ValidUtf8(s[LeadLength(s)..]))
  }

  /** `str::is_char_boundary`. */
  predicate CharBoundary(s: Text, i: nat) {
    i == 0 || i == |s| || (i < |s| && !IsContinuation(s[i]))
  }

  lemma {:induction false} LeadConcat(a: Text, b: Text)
    requires LeadLength(a) > 0
    ensures LeadLength(a + b) == LeadLength(a) && (a + b)[LeadLength(a)..] == a[LeadLength(a)..] + b
  {
  }

  lemma {:induction false} ValidConcat(a: Text, b: Text)
    requires ValidUtf8(a) && ValidUtf8(b)
    ensures ValidUtf8(a + b)
    decreases |a|
  {
    hide LeadLength;
    if a == [] {
      assert a + b == b;
    } else {
      LeadConcat(a, b);
      ValidConcat(a[LeadLength(a)..], b);
    }
  }

  /** Cutting a well-formed text at a character boundary leaves two well-formed texts. */
  lemma {:induction false} ValidSplit(s: Text, i: nat)
    requires ValidUtf8(s) && i <= |s| && CharBoundary(s, i)
    ensures ValidUtf8(s[..i]) && ValidUtf8(s[i..])
    decreases |s|
  {
    if i == 0 {
      assert s[0..] == s;
    } else if i == |s| {
      assert s[..i] == s;
    } else {
      var n := LeadLength(s);
      assert n <= i;
      var rest := s[n..];
      ValidSplit(rest, i - n);
      assert rest[..i - n] == s[..i][n..];
      assert rest[i - n..] == s[i..];
    }
  }

  /** In well-formed text an ASCII byte is never followed by a continuation byte. */
  lemma {:induction false} AsciiStandsAlone(s: Text, i: nat)
    requires ValidUtf8(s) && i + 1 < |s| && s[i] < 0x80
    ensures !IsContinuation(s[i + 1])
  {
    ValidSplit(s, i);
    var t := s[i..];
    assert t[LeadLength(t)..] == s[i + 1..];
    assert LeadLength(s[i + 1..]) > 0;
  }

  lemma {:induction false} AsciiIsValid(s: Text)
    requires forall i | 0 <= i < |s| :: s[i] < 0x80
    ensures ValidUtf8(s)
    decreases |s|
  {
    if s != [] {
      AsciiIsValid(s[1..]);
    }
  }
}
