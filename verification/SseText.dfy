/** Event streams as an upstream writes them (sections 9.2.5 and 9.2.6 of the WHATWG HTML Standard), and
    what the framing of src/core/sse.rs reads out of them. */
module SseText {
  import opened Bytes
  import Sse = SseFraming

  /** One line of a stream: a `data:` field with a space after the colon or without, a blank line, a field
      or comment of another kind, or a `data:` field that is not well-formed UTF-8; ended by LF or CRLF. */
  datatype Line =
    | Data(value: Text, space: bool, crlf: bool)
    | Blank(crlf: bool)
    | Ignored(text: Text, crlf: bool)
    | Malformed(value: Text, crlf: bool)

  const DATA: Text := [100, 97, 116, 97, 58] // data:

  predicate NoCrAtEnd(t: Text) { t != [] ==> t[|t| - 1] != 13 }

  /** A line that is what its constructor says: no line end inside it; the space that is not the
      separator's is not mistaken for it, nor a CR of the text for the line end's. */
  predicate LineOk(l: Line) {
    match l
    case Data(v, space, crlf) =>
      10 !in v && ValidUtf8(v) && (space || v == [] || v[0] != 32) && (crlf || NoCrAtEnd(v))
    case Blank(_) => true
    case Ignored(t, crlf) => t != [] && 10 !in t && !(DATA <= t) && (crlf || NoCrAtEnd(t))
    case Malformed(v, crlf) => 10 !in v && !ValidUtf8(v) && v != [] && v[0] != 32 && (crlf || NoCrAtEnd(v))
  }

  function Body(l: Line): Text {
    match l
    case Data(v, space, _) => DATA + (if space then [32] else []) + v
    case Blank(_) => []
    case Ignored(t, _) => t
    case Malformed(v, _) => DATA + v
  }

  /** The line without its LF. */
  function Raw(l: Line): Text { Body(l) + (if l.crlf then [13] else []) }

  function Write(ls: seq<Line>): Text { if ls == [] then [] else Raw(ls[0]) + [10] + Write(ls[1..]) }

  predicate LinesOk(ls: seq<Line>) { forall i | 0 <= i < |ls| :: LineOk(ls[i]) }

  /** Values joined by LF. */
  function Joined(values: seq<Text>): Text
    requires values != []
  {
    if |values| == 1 then values[0] else values[0] + [10] + Joined(values[1..])
  }

  function Flush(values: seq<Text>): seq<Text> { if values == [] then [] else [Joined(values)] }

  /** The payloads of a stream whose current event already has the data `values`: the values of each
      event's `data:` fields joined by LF, an event ending at a blank line or at the end of the stream. */
  function Payloads(values: seq<Text>, ls: seq<Line>): seq<Text>
    decreases |ls|
  {
    if ls == [] then Flush(values)
    else
      match ls[0]
      case Data(v, _, _) => Payloads(values + [v], ls[1..])
      case Blank(_) => Flush(values) + Payloads([], ls[1..])
      case _ => Payloads(values, ls[1..])
  }

  // ----- the framing reads it so -----

  lemma {:induction false} FlushIsEvent(values: seq<Text>)
    ensures Sse.EventPayload(values) == Flush(values)
  {
    if |values| > 1 {
      FlushIsEvent(values[1..]);
    }
  }

  lemma {:induction false} RawHasNoLf(l: Line)
    requires LineOk(l)
    ensures 10 !in Raw(l)
  {
  }

  /** Stripping the CR gives the body back. */
  lemma {:induction false} StripGivesBody(l: Line)
    requires LineOk(l)
    ensures Sse.StripCr(Raw(l)) == Body(l)
  {
    if l.crlf {
      assert Raw(l)[..|Raw(l)| - 1] == Body(l);
    } else {
      assert Raw(l) == Body(l);
      if Body(l) != [] && (l.Data? || l.Malformed?) && l.value != [] {
        assert Body(l)[|Body(l)| - 1] == l.value[|l.value| - 1];
      }
    }
  }

  lemma {:induction false} FieldValue(l: Line)
    requires LineOk(l) && !l.Blank?
    ensures Body(l) != []
    ensures l.Data? ==> Sse.DataOf(Body(l)) == Some(l.value)
    ensures !l.Data? ==> Sse.DataOf(Body(l)) == None
  {
    hide ValidUtf8;
    assert Sse.DATA_FIELD == DATA;
    if l.Data? || l.Malformed? {
      var rest := (if l.Data? && l.space then [32] else []) + l.value;
      assert Body(l) == DATA + rest;
      assert Body(l)[|DATA|..] == rest && Body(l)[..|DATA|] == DATA;
      if l.Data? && l.space {
        assert rest[1..] == l.value;
      } else {
        assert rest == l.value;
      }
    }
  }

  lemma {:induction false} LinesSplit(ls: seq<Line>, tail: Text)
    requires LinesOk(ls) && 10 !in tail
    ensures |Sse.SplitLines(Write(ls) + tail).0| == |ls|
    ensures forall i | 0 <= i < |ls| :: Sse.SplitLines(Write(ls) + tail).0[i] == Raw(ls[i])
  {
    hide LineOk, Raw, Sse.SplitLines;
    if ls == [] {
      assert Write(ls) + tail == tail;
      NoLineSplit(tail);
    } else {
      var raw, rest := Raw(ls[0]), Write(ls[1..]) + tail;
      LinesSplit(ls[1..], tail);
      RawHasNoLf(ls[0]);
      assert Write(ls) + tail == raw + [10] + rest;
      FirstLineSplit(raw, rest);
    }
  }

  lemma {:induction false} NoLineSplit(tail: Text)
    requires 10 !in tail
    ensures Sse.SplitLines(tail) == ([], tail)
  {
    Sse.FindByteNone(tail, LF);
  }

  lemma {:induction false} FirstLineSplit(raw: Text, rest: Text)
    requires 10 !in raw
    ensures Sse.SplitLines(raw + [10] + rest).0 == [raw] + Sse.SplitLines(rest).0
  {
    var s := raw + [10] + rest;
    Sse.FindByteIs(s, LF, 0, |raw|);
    assert s[..|raw|] == raw && s[|raw| + 1..] == rest;
  }

  function Raws(ls: seq<Line>): (rs: seq<Text>)
    ensures |rs| == |ls| && forall i | 0 <= i < |ls| :: rs[i] == Raw(ls[i])
  {
    seq(|ls|, i requires 0 <= i < |ls| => Raw(ls[i]))
  }

  lemma {:induction false} LinesRead(values: seq<Text>, ls: seq<Line>)
    requires LinesOk(ls)
    ensures Sse.PayloadsAfter(values, Raws(ls)) == Payloads(values, ls)
    decreases |ls|
  {
    hide LineOk, Raw, Body, Sse.PayloadsAfter, Sse.StripCr, Sse.DataOf, Sse.EventPayload, Flush;
    FlushIsEvent(values);
    if ls == [] {
      assert Raws(ls) == [];
      Sse.NothingMore(values);
    } else {
      var l, more := ls[0], Raws(ls[1..]);
      assert Raws(ls) == [Raw(l)] + more;
      StripGivesBody(l);
      if l.Blank? {
        BlankBody(l);
        Sse.BlankLineMeets(values, Raw(l), more);
        LinesRead([], ls[1..]);
      } else {
        FieldValue(l);
        Sse.FieldLineMeets(values, Raw(l), more);
        LinesRead(values + (if l.Data? then [l.value] else []), ls[1..]);
        assert values + [] == values;
      }
    }
  }

  lemma {:induction false} BlankBody(l: Line)
    requires l.Blank?
    ensures Body(l) == []
  {
  }

  /** Every event stream, in terms of its lines: the payloads are the values of each event's `data:` fields
      joined by LF.  The space after the colon is not part of the value and a second one is; lines of
      another kind, malformed fields and an unterminated last line add nothing. */
  lemma {:induction false} StreamIsRead(ls: seq<Line>, tail: Text)
    requires LinesOk(ls) && 10 !in tail
    ensures Sse.StreamPayloads(Write(ls) + tail) == Payloads([], ls)
  {
    hide LinesOk, Raw, Payloads, Sse.BlockPayloads, Sse.Blocks, Sse.SplitLines, Sse.EventPayload;
    LinesSplit(ls, tail);
    var lines := Sse.SplitLines(Write(ls) + tail).0;
    assert lines == Raws(ls);
    LinesRead([], ls);
    var bs := Sse.Blocks(lines);
    Sse.BlockPayloadsUnfold(bs);
    assert [] + Sse.DataLines(bs[0]) == Sse.DataLines(bs[0]);
  }

  /** One event of one field, written out: `data: v` and `data:v`, ended by LF or CRLF. */
  lemma {:induction false} OneField(v: Text, space: bool, crlf: bool, crlf': bool)
    requires LineOk(Data(v, space, crlf))
    ensures var text := [100, 97, 116, 97, 58] + (if space then [32] else []) + v + (if crlf then [13] else []) + [10]
                        + (if crlf' then [13] else []) + [10];
            Sse.StreamPayloads(text) == [v]
  {
    hide Sse.StreamPayloads;
    var l, b := Data(v, space, crlf), Blank(crlf');
    var text := DATA + (if space then [32] else []) + v + (if crlf then [13] else []) + [10]
                + (if crlf' then [13] else []) + [10];
    assert [l, b][1..] == [b] && [b][1..] == [];
    assert Write([]) == [] && Write([b]) == Raw(b) + [10] + [];
    assert Write([l, b]) == Raw(l) + [10] + Write([b]);
    assert Raw(b) == [] + (if crlf' then [13] else []);
    assert Write([l, b]) + [] == text;
    StreamIsRead([l, b], []);
    assert [] + [v] == [v] && [v] + [] == [v];
    assert Payloads([v], [b]) == Flush([v]) + Payloads([], []);
    assert Payloads([], [l, b]) == Payloads([v], [b]);
  }

  /** However the stream is cut into chunks: for total input within the cap, pushing them and finishing
      yields those payloads. */
  lemma {:induction false} ChunksAreRead(ls: seq<Line>, tail: Text, chunks: seq<Text>)
    requires LinesOk(ls) && 10 !in tail && Concat(chunks) == Write(ls) + tail && |Concat(chunks)| <= Sse.MAX_BUFFER_BYTES
    ensures var (data, buffer, payloads) := Sse.PushAll([], [], chunks);
            payloads + Sse.FinishSpec(data) == Payloads([], ls)
  {
    hide Sse.PushAll, Sse.StreamPayloads, Payloads, LinesOk;
    Sse.FramingMeetsSpec(chunks);
    StreamIsRead(ls, tail);
  }

  // ----- over the caps -----

  /** Beyond the cap on buffered bytes: a chunk too large by itself changes nothing, and one that would
      overflow the line buffer is read as if nothing had come before it. */
  lemma {:induction false} OverTheBufferCap(buffer: Text, data: Text, chunk: Text)
    ensures |chunk| > 67108864 ==> Sse.PushSpec(buffer, data, chunk) == (data, buffer, [])
    ensures |chunk| <= 67108864 < |buffer| + |chunk| ==>
              Sse.PushSpec(buffer, data, chunk) == Sse.PushSpec([], [], chunk)
  {
    hide Sse.RunLines;
    assert [] + chunk == chunk;
  }

  /** Beyond the cap on an event's data: the field that would exceed it, and what the event had before,
      are dropped, and reading goes on. */
  lemma {:induction false} OverTheEventCap(data: Text, l: Line, rest: Text)
    requires LineOk(l) && l.Data? && |data| + |l.value| + 1 > 67108864
    ensures Sse.RunLines(data, Raw(l) + [10] + rest) == Sse.RunLines([], rest)
  {
    hide Raw, Body, Sse.StripCr, Sse.DataOf, Sse.RunLines;
    var s, raw := Raw(l) + [10] + rest, Raw(l);
    RawHasNoLf(l);
    assert s == raw + ([10] + rest);
    Sse.FindByteIs(s, LF, 0, |raw|);
    assert s[..|raw|] == raw && s[|raw| + 1..] == rest;
    Sse.FirstLine(data, s, |raw|);
    StripGivesBody(l);
    FieldValue(l);
    var more := Sse.RunLines([], rest);
    assert [] + more.2 == more.2;
  }
}
