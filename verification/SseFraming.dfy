/** SSE framing (src/core/sse.rs): a subset of sections 9.2.5 and 9.2.6 of the WHATWG HTML
    Standard, with lines ended by LF or CRLF and a pending event flushed at end of stream. */
module SseFraming {
  import opened Bytes

  const MAX_BUFFER_BYTES: nat := 64 * 1024 * 1024

  // ----- the simple specification -----

  const DATA_FIELD: Text := [100, 97, 116, 97, COLON] // "data:"

  function StripCr(line: Text): Text {
    if line != [] && line[|line| - 1] == CR then line[..|line| - 1] else line
  }

  /** The value of a `data:` line that is well-formed UTF-8. */
  function DataOf(line: Text): (d: Option<Text>)
    ensures d.Some? ==> ValidUtf8(d.value) && |d.value| < |line|
  {
    if DATA_FIELD <= line then
      var value := line[|DATA_FIELD|..];
      var value := if value != [] && value[0] == SPACE then value[1..] else value;
      if ValidUtf8(value) then Some(value) else None
    else None
  }

  /** The lines ended by LF, and the unterminated rest. */
  function SplitLines(s: Text): (seq<Text>, Text)
    decreases |s|
  {
    var i := FindByte(s, LF, 0);
    if i == |s| then ([], s)
    else
      var (lines, rest) := SplitLines(s[i + 1..]);
      ([s[..i]] + lines, rest)
  }

  /** Events: runs of lines separated by blank lines. */
  function Blocks(lines: seq<Text>): (bs: seq<seq<Text>>)
    ensures bs != []
  {
    if lines == [] then [[]]
    else if StripCr(lines[0]) == [] then [[]] + Blocks(lines[1..])
    else
      var bs := Blocks(lines[1..]);
      [[lines[0]] + bs[0]] + bs[1..]
  }

  function DataLines(block: seq<Text>): seq<Text> {
    if block == [] then []
    else
      var d := DataOf(StripCr(block[0]));
      (if d.Some? then [d.value] else []) + DataLines(block[1..])
  }

  function Join(lines: seq<Text>): Text {
    if lines == [] then [] else if |lines| == 1 then lines[0] else lines[0] + [LF] + Join(lines[1..])
  }

  /** An event has a payload if it has at least one data line. */
  function EventPayload(data: seq<Text>): seq<Text> { if data == [] then [] else [Join(data)] }

  function BlockPayloads(blocks: seq<seq<Text>>): seq<Text> {
    if blocks == [] then [] else EventPayload(DataLines(blocks[0])) + BlockPayloads(blocks[1..])
  }

  /** The payloads of a whole stream: split on LF, strip one CR, group by blank line, join the
      well-formed `data:` lines with LF; an unterminated last line is discarded. */
  function StreamPayloads(s: Text): seq<Text> { BlockPayloads(Blocks(SplitLines(s).0)) }

  // ----- what `push` and `finish` compute -----

  /** One complete line: (pending event data, payloads). */
  function LineStep(data: Text, line: Text): (Text, seq<Text>) {
    var line := StripCr(line);
    if line == [] then
      if data == [] then ([], []) else ([], [data[..|data| - 1]])
    else
      var d := DataOf(line);
      if d.None? then (data, [])
      else if |data| + |d.value| + 1 > MAX_BUFFER_BYTES then ([], [])
      else (data + d.value + [LF], [])
  }

  /** Every complete line of `s`: (pending event data, unterminated rest, payloads). */
  function RunLines(data: Text, s: Text): (Text, Text, seq<Text>)
    decreases |s|
  {
    var i := FindByte(s, LF, 0);
    if i == |s| then (data, s, [])
    else
      var (data1, outs) := LineStep(data, s[..i]);
      var (data2, rest, more) := RunLines(data1, s[i + 1..]);
      (data2, rest, outs + more)
  }

  function PushSpec(buffer: Text, data: Text, chunk: Text): (Text, Text, seq<Text>) {
    if |chunk| > MAX_BUFFER_BYTES then (data, buffer, [])
    else if |buffer| + |chunk| > MAX_BUFFER_BYTES then RunLines([], chunk)
    else RunLines(data, buffer + chunk)
  }

  function FinishSpec(data: Text): seq<Text> { if data == [] then [] else [data[..|data| - 1]] }

  // ----- bounds in every reachable state -----

  predicate DataOk(data: Text) {
    && |data| <= MAX_BUFFER_BYTES && ValidUtf8(data)
    && (data == [] || data[|data| - 1] == LF)
  }

  predicate FramingOk(buffer: Text, data: Text) {
    LF !in buffer && |buffer| <= MAX_BUFFER_BYTES && DataOk(data)
  }

  lemma {:induction false} LfIsValid()
    ensures ValidUtf8([LF])
  {
    AsciiIsValid([LF]);
  }

  lemma {:induction false} PayloadIsUtf8(data: Text)
    requires DataOk(data) && data != []
    ensures ValidUtf8(data[..|data| - 1])
  {
    ValidSplit(data, |data| - 1);
  }

  lemma {:induction false} LineStepOk(data: Text, line: Text)
    requires DataOk(data)
    ensures DataOk(LineStep(data, line).0)
    ensures forall p | p in LineStep(data, line).1 :: ValidUtf8(p)
  {
    hide ValidUtf8;
    var d := DataOf(StripCr(line));
    LfIsValid();
    assert ValidUtf8([]) by { AsciiIsValid([]); }
    if data != [] {
      PayloadIsUtf8(data);
    }
    if d.Some? {
      ValidConcat(data, d.value);
      ValidConcat(data + d.value, [LF]);
    }
  }

  lemma {:induction false} RunLinesOk(data: Text, s: Text)
    requires DataOk(data)
    ensures var (data', rest, outs) := RunLines(data, s);
            && DataOk(data') && LF !in rest && |rest| <= |s|
            && forall p | p in outs :: ValidUtf8(p)
    decreases |s|
  {
    hide ValidUtf8, LineStep, DataOk;
    var i := FindByte(s, LF, 0);
    if i < |s| {
      LineStepOk(data, s[..i]);
      RunLinesOk(LineStep(data, s[..i]).0, s[i + 1..]);
    }
  }

  /** For any chunks at all: the line buffer holds no LF and stays within the cap, the event data
      stay within the cap, end in LF and are well-formed UTF-8, and so is every payload. */
  lemma {:induction false} PushKeepsBounds(buffer: Text, data: Text, chunk: Text)
    requires FramingOk(buffer, data)
    ensures var (data', buffer', outs) := PushSpec(buffer, data, chunk);
            FramingOk(buffer', data') && forall p | p in outs :: ValidUtf8(p)
  {
    hide RunLines, ValidUtf8;
    assert DataOk([]) by { AsciiIsValid([]); }
    RunLinesOk([], chunk);
    RunLinesOk(data, buffer + chunk);
  }

  // ----- chunk independence -----

  lemma {:induction false} FindByteIs(s: Text, b: byte, from: nat, i: nat)
    requires from <= i < |s| && s[i] == b && forall x | from <= x < i :: s[x] != b
    ensures FindByte(s, b, from) == i
  {
  }

  lemma {:induction false} FindByteNone(s: Text, b: byte)
    requires b !in s
    ensures FindByte(s, b, 0) == |s|
  {
  }

  lemma {:induction false} FirstLine(data: Text, s: Text, i: nat)
    requires i < |s| && FindByte(s, LF, 0) == i
    ensures var (data1, outs) := LineStep(data, s[..i]);
            var (data2, rest, more) := RunLines(data1, s[i + 1..]);
            RunLines(data, s) == (data2, rest, outs + more)
  {
    hide LineStep;
  }

  /** Reading on after a chunk boundary is reading the concatenation. */
  lemma {:induction false} RunLinesSplit(data: Text, a: Text, b: Text)
    ensures var (data1, rest, outs) := RunLines(data, a);
            var (data2, rest2, more) := RunLines(data1, rest + b);
            RunLines(data, a + b) == (data2, rest2, outs + more)
    decreases |a|
  {
    hide LineStep, RunLines, FindByte;
    var i := FindByte(a, LF, 0);
    if i == |a| {
      NoLineYet(data, a);
      var r := RunLines(data, a + b);
      assert [] + r.2 == r.2;
    } else {
      assert (a + b)[i] == LF && forall x | 0 <= x < i :: (a + b)[x] == a[x];
      FindByteIs(a + b, LF, 0, i);
      FirstLine(data, a, i);
      FirstLine(data, a + b, i);
      assert (a + b)[..i] == a[..i] && (a + b)[i + 1..] == a[i + 1..] + b;
      var (data1, outs) := LineStep(data, a[..i]);
      RunLinesSplit(data1, a[i + 1..], b);
      var (data2, rest, more) := RunLines(data1, a[i + 1..]);
      Assoc(outs, more, RunLines(data2, rest + b).2);
    }
  }

  /** Pending data lines as `data_lines` stores them: each followed by LF. */
  function Terminated(lines: seq<Text>): Text {
    if lines == [] then [] else lines[0] + [LF] + Terminated(lines[1..])
  }

  lemma {:induction false} TerminatedJoin(lines: seq<Text>)
    requires lines != []
    ensures Terminated(lines) == Join(lines) + [LF]
  {
    if |lines| == 1 {
      assert lines[1..] == [];
      assert Terminated(lines) == lines[0] + [LF] + [];
    } else {
      TerminatedJoin(lines[1..]);
      assert lines[0] + [LF] + (Join(lines[1..]) + [LF]) == lines[0] + [LF] + Join(lines[1..]) + [LF];
    }
  }

  lemma {:induction false} TerminatedAppend(lines: seq<Text>, d: Text)
    ensures Terminated(lines + [d]) == Terminated(lines) + d + [LF]
  {
    if lines == [] {
      assert ([d])[1..] == [] && lines + [d] == [d];
      assert d + [LF] + [] == d + [LF];
    } else {
      TerminatedAppend(lines[1..], d);
      assert (lines + [d])[1..] == lines[1..] + [d];
      assert lines[0] + [LF] + (Terminated(lines[1..]) + d + [LF])
          == lines[0] + [LF] + Terminated(lines[1..]) + d + [LF];
    }
  }

  /** The payloads of a stream whose first event already has the data lines `pending`. */
  function PayloadsAfter(pending: seq<Text>, lines: seq<Text>): seq<Text> {
    var bs := Blocks(lines);
    EventPayload(pending + DataLines(bs[0])) + BlockPayloads(bs[1..])
  }

  lemma {:induction false} FlushPending(pending: seq<Text>)
    ensures FinishSpec(Terminated(pending)) == EventPayload(pending)
  {
    if pending != [] {
      TerminatedJoin(pending);
      var t := Terminated(pending);
      assert t[..|t| - 1] == Join(pending);
    }
  }

  lemma {:induction false} BlankLineMeets(pending: seq<Text>, line: Text, more: seq<Text>)
    requires StripCr(line) == []
    ensures PayloadsAfter(pending, [line] + more) == EventPayload(pending) + PayloadsAfter([], more)
  {
    hide EventPayload, BlockPayloads;
    var lines, bs := [line] + more, Blocks(more);
    assert lines[1..] == more;
    assert Blocks(lines)[1..] == bs && Blocks(lines)[0] == [];
    assert pending + [] == pending && [] + DataLines(bs[0]) == DataLines(bs[0]);
    BlockPayloadsUnfold(bs);
  }

  lemma {:induction false} BlockPayloadsUnfold(bs: seq<seq<Text>>)
    requires bs != []
    ensures BlockPayloads(bs) == EventPayload(DataLines(bs[0])) + BlockPayloads(bs[1..])
  {
  }

  lemma {:induction false} FieldLineMeets(pending: seq<Text>, line: Text, more: seq<Text>)
    requires StripCr(line) != []
    ensures var d := DataOf(StripCr(line));
            PayloadsAfter(pending, [line] + more)
            == PayloadsAfter(pending + (if d.Some? then [d.value] else []), more)
  {
    hide EventPayload, BlockPayloads, DataOf, StripCr;
    var lines, bs, d := [line] + more, Blocks(more), DataOf(StripCr(line));
    assert lines[1..] == more;
    assert Blocks(lines)[1..] == bs[1..] && Blocks(lines)[0] == [line] + bs[0];
    assert ([line] + bs[0])[1..] == bs[0];
    var one := if d.Some? then [d.value] else [];
    assert pending + (one + DataLines(bs[0])) == pending + one + DataLines(bs[0]);
  }

  /** One line against the specification, while the event data stay under the cap. */
  lemma {:induction false} LineMeets(pending: seq<Text>, line: Text, more: seq<Text>)
    returns (pending': seq<Text>)
    requires |Terminated(pending)| + |line| <= MAX_BUFFER_BYTES
    ensures var (data', outs) := LineStep(Terminated(pending), line);
            && data' == Terminated(pending') && |data'| <= |Terminated(pending)| + |line| + 1
            && PayloadsAfter(pending, [line] + more) == outs + PayloadsAfter(pending', more)
  {
    hide ValidUtf8, PayloadsAfter;
    LineStepSize(Terminated(pending), line);
    if StripCr(line) == [] {
      FlushPending(pending);
      BlankLineMeets(pending, line, more);
      pending' := [];
    } else {
      var d := DataOf(StripCr(line));
      FieldLineMeets(pending, line, more);
      pending' := pending + (if d.Some? then [d.value] else []);
      if d.Some? {
        TerminatedAppend(pending, d.value);
      } else {
        assert pending' == pending;
      }
      var all := PayloadsAfter(pending', more);
      assert [] + all == all;
    }
  }

  /** Reading a stretch of stream meets the specification, under the cap. */
  lemma {:induction false} RunMeets(pending: seq<Text>, s: Text)
    requires |Terminated(pending)| + |s| <= MAX_BUFFER_BYTES
    ensures var (data', rest, outs) := RunLines(Terminated(pending), s);
            outs + FinishSpec(data') == PayloadsAfter(pending, SplitLines(s).0)
    decreases |s|
  {
    hide LineStep, FinishSpec, Terminated, PayloadsAfter;
    var i := FindByte(s, LF, 0);
    if i == |s| {
      FlushPending(pending);
      NothingMore(pending);
      var flushed := EventPayload(pending);
      assert [] + flushed == flushed;
    } else {
      var (lines, rest) := SplitLines(s[i + 1..]);
      var pending' := LineMeets(pending, s[..i], lines);
      RunMeets(pending', s[i + 1..]);
      var (data1, outs) := LineStep(Terminated(pending), s[..i]);
      var (data2, rest2, more) := RunLines(data1, s[i + 1..]);
      assert outs + (more + FinishSpec(data2)) == outs + more + FinishSpec(data2);
    }
  }

  lemma {:induction false} NothingMore(pending: seq<Text>)
    ensures PayloadsAfter(pending, []) == EventPayload(pending)
  {
    assert pending + [] == pending;
    var e := EventPayload(pending);
    assert e + [] == e;
  }

  /** Any number of pushes: (pending data, buffer, payloads). */
  function PushAll(buffer: Text, data: Text, chunks: seq<Text>): (Text, Text, seq<Text>)
    decreases |chunks|
  {
    if chunks == [] then (data, buffer, [])
    else
      var (data1, buffer1, outs) := PushSpec(buffer, data, chunks[0]);
      var (data2, buffer2, more) := PushAll(buffer1, data1, chunks[1..]);
      (data2, buffer2, outs + more)
  }

  lemma {:induction false} LineStepSize(data: Text, line: Text)
    ensures |LineStep(data, line).0| <= |data| + |line| + 1
  {
    hide ValidUtf8;
  }

  lemma {:induction false} RunLinesSize(data: Text, s: Text)
    ensures |RunLines(data, s).0| + |RunLines(data, s).1| <= |data| + |s|
    decreases |s|
  {
    hide LineStep;
    var i := FindByte(s, LF, 0);
    if i < |s| {
      LineStepSize(data, s[..i]);
      RunLinesSize(LineStep(data, s[..i]).0, s[i + 1..]);
    }
  }

  /** Under the cap, pushing chunk by chunk is reading the concatenation at once. */
  lemma {:induction false} PushesAreOneRead(buffer: Text, data: Text, chunks: seq<Text>)
    requires LF !in buffer && |data| + |buffer| + |Concat(chunks)| <= MAX_BUFFER_BYTES
    ensures PushAll(buffer, data, chunks) == RunLines(data, buffer + Concat(chunks))
    decreases |chunks|
  {
    hide RunLines;
    if chunks == [] {
      assert buffer + [] == buffer;
      NoLineYet(data, buffer);
    } else {
      var a, b := buffer + chunks[0], Concat(chunks[1..]);
      var (data1, buffer1, outs) := PushSpec(buffer, data, chunks[0]);
      RunLinesSize(data, a);
      RunLinesSplit(data, a, b);
      RestHasNoLf(data, a);
      PushesAreOneRead(buffer1, data1, chunks[1..]);
      assert a + b == buffer + Concat(chunks);
    }
  }

  lemma {:induction false} NoLineYet(data: Text, buffer: Text)
    requires LF !in buffer
    ensures RunLines(data, buffer) == (data, buffer, [])
  {
    FindByteNone(buffer, LF);
  }

  lemma {:induction false} RestHasNoLf(data: Text, s: Text)
    ensures LF !in RunLines(data, s).1
    decreases |s|
  {
    var i := FindByte(s, LF, 0);
    if i < |s| {
      RestHasNoLf(LineStep(data, s[..i]).0, s[i + 1..]);
    }
  }

  /** SSE framing is chunk-independent: for total input within the cap, pushing any split of a
      stream and finishing yields exactly the payloads of the simple specification. */
  lemma {:induction false} FramingMeetsSpec(chunks: seq<Text>)
    requires |Concat(chunks)| <= MAX_BUFFER_BYTES
    ensures PushAll([], [], chunks).2 + FinishSpec(PushAll([], [], chunks).0) == StreamPayloads(Concat(chunks))
  {
    hide RunLines, PushAll, Blocks, SplitLines;
    var s := Concat(chunks);
    PushesAreOneRead([], [], chunks);
    assert [] + s == s;
    RunMeets([], s);
    var bs := Blocks(SplitLines(s).0);
    assert [] + DataLines(bs[0]) == DataLines(bs[0]);
    assert bs == [bs[0]] + bs[1..];
  }

  lemma {:induction false} PushAllConcat(buffer: Text, data: Text, a: seq<Text>, b: seq<Text>)
    ensures var (data1, buffer1, outs) := PushAll(buffer, data, a);
            var (data2, buffer2, more) := PushAll(buffer1, data1, b);
            PushAll(buffer, data, a + b) == (data2, buffer2, outs + more)
    decreases |a|
  {
    hide PushSpec;
    if a == [] {
      assert a + b == b;
      var more := PushAll(buffer, data, b).2;
      assert [] + more == more;
    } else {
      assert (a + b)[1..] == a[1..] + b;
      var (data1, buffer1, outs) := PushSpec(buffer, data, a[0]);
      PushAllConcat(buffer1, data1, a[1..], b);
      var (data2, buffer2, mid) := PushAll(buffer1, data1, a[1..]);
      var more := PushAll(buffer2, data2, b).2;
      assert outs + (mid + more) == outs + mid + more;
    }
  }

  lemma {:induction false} LineKeepsPending(data: Text, line: Text)
    requires data != [] && |data| + |line| <= MAX_BUFFER_BYTES
    ensures LineStep(data, line).0 != [] || LineStep(data, line).1 != []
  {
    hide ValidUtf8;
  }

  /** Under the cap, pending event data always surface as a payload, at a blank line or at the end. */
  lemma {:induction false} PendingSurfaces(data: Text, s: Text)
    requires data != [] && |data| + |s| <= MAX_BUFFER_BYTES
    ensures RunLines(data, s).2 + FinishSpec(RunLines(data, s).0) != []
    decreases |s|
  {
    hide LineStep;
    var i := FindByte(s, LF, 0);
    if i < |s| {
      LineKeepsPending(data, s[..i]);
      LineStepSize(data, s[..i]);
      var (data1, outs) := LineStep(data, s[..i]);
      if outs == [] {
        PendingSurfaces(data1, s[i + 1..]);
      }
    }
  }

  // ----- the object -----

  /** `String::from_utf8_lossy` on bytes it leaves alone. */
  function FromUtf8Lossy(b: Text): Text
    requires ValidUtf8(b)
  {
    b
  }

  class Framing {
    var buffer: Text
    var dataLines: Text
    var dataLinesBytes: nat
    var invalidUtf8Lines: nat

    ghost predicate Valid()
      reads this
    {
      FramingOk(buffer, dataLines) && dataLinesBytes == |dataLines|
    }

    constructor ()
      ensures Valid() && buffer == [] && dataLines == []
    {
      buffer, dataLines, dataLinesBytes, invalidUtf8Lines := [], [], 0, 0;
      AsciiIsValid([]);
    }

    method Push(chunk: Text) returns (payloads: seq<Text>)
      requires Valid()
      modifies this
      ensures Valid()
      ensures (dataLines, buffer, payloads) == PushSpec(old(buffer), old(dataLines), chunk)
      ensures forall p | p in payloads :: ValidUtf8(p)
    {
      hide ValidUtf8, RunLines, LineStep, FindByte;
      PushKeepsBounds(buffer, dataLines, chunk);
      if |chunk| > MAX_BUFFER_BYTES {
        return [];
      }
      if |buffer| + |chunk| > MAX_BUFFER_BYTES {
        buffer := [];
        dataLines := [];
        dataLinesBytes := 0;
        assert ValidUtf8([]) by { AsciiIsValid([]); }
        assert [] + chunk == chunk;
      }
      buffer := buffer + chunk;
      payloads := [];
      var consumed := 0;
      ghost var data0, whole := dataLines, buffer;
      assert buffer[0..] == buffer;
      ghost var all := RunLines(data0, whole);
      assert [] + all.2 == all.2;
      while true
        invariant 0 <= consumed <= |buffer| && buffer == whole
        invariant DataOk(dataLines) && dataLinesBytes == |dataLines|
        invariant var (d, r, outs) := RunLines(dataLines, buffer[consumed..]);
                  all == (d, r, payloads + outs)
        decreases |buffer| - consumed
      {
        var end := FindByte(buffer, LF, consumed);
        LineAt(dataLines, buffer, consumed);
        if end == |buffer| {
          assert payloads + [] == payloads;
          break;
        }
        var outs := TakeLine(buffer[consumed..end]);
        Assoc(payloads, outs, RunLines(dataLines, buffer[end + 1..]).2);
        payloads := payloads + outs;
        consumed := end + 1;
      }
      if consumed > 0 {
        buffer := buffer[consumed..];
      }
    }

    /** The loop body of `push`: one line without its LF. */
    method TakeLine(raw: Text) returns (payloads: seq<Text>)
      requires DataOk(dataLines) && dataLinesBytes == |dataLines|
      modifies this`dataLines, this`dataLinesBytes, this`invalidUtf8Lines
      ensures DataOk(dataLines) && dataLinesBytes == |dataLines|
      ensures (dataLines, payloads) == LineStep(old(dataLines), raw)
    {
      LineStepOk(dataLines, raw);
      payloads := [];
      var line := if raw != [] && raw[|raw| - 1] == CR then raw[..|raw| - 1] else raw;
      if line == [] {
        if dataLines != [] {
          PayloadIsUtf8(dataLines);
          payloads := [FromUtf8Lossy(dataLines[..|dataLines| - 1])];
          dataLines := [];
          dataLinesBytes := 0;
        }
        return;
      }
      if DATA_FIELD <= line {
        var data := line[|DATA_FIELD|..];
        if data != [] && data[0] == SPACE {
          data := data[1..];
        }
        if ValidUtf8(data) {
          dataLinesBytes := dataLinesBytes + |data| + 1;
          if dataLinesBytes > MAX_BUFFER_BYTES {
            dataLines := [];
            dataLinesBytes := 0;
          } else {
            dataLines := dataLines + data + [LF];
          }
        } else {
          invalidUtf8Lines := invalidUtf8Lines + 1;
        }
      }
    }

    method Finish() returns (payloads: seq<Text>)
      requires Valid()
      modifies this
      ensures Valid() && buffer == [] && dataLines == []
      ensures payloads == FinishSpec(old(dataLines)) && forall p | p in payloads :: ValidUtf8(p)
    {
      if dataLines == [] {
        payloads := [];
      } else {
        PayloadIsUtf8(dataLines);
        payloads := [FromUtf8Lossy(dataLines[..|dataLines| - 1])];
      }
      dataLines := [];
      dataLinesBytes := 0;
      buffer := [];
    }
  }

  lemma {:induction false} LineAt(data: Text, s: Text, from: nat)
    requires from <= |s|
    ensures var end := FindByte(s, LF, from);
            var (data1, outs) := LineStep(data, s[from..end]);
            if end == |s| then RunLines(data, s[from..]) == (data, s[from..], [])
            else RunLines(data, s[from..])
                 == (RunLines(data1, s[end + 1..]).0, RunLines(data1, s[end + 1..]).1,
                     outs + RunLines(data1, s[end + 1..]).2)
  {
    hide LineStep;
    var end, t := FindByte(s, LF, from), s[from..];
    if end == |s| {
      NoLineYet(data, t);
    } else {
      FindByteIs(t, LF, 0, end - from);
      assert t[..end - from] == s[from..end] && t[end - from + 1..] == s[end + 1..];
    }
  }
}
