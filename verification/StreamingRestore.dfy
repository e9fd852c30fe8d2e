/** Streaming restore refines one-shot restore (src/core/privacy.rs, `RestoreStream`). */
module StreamingRestore {
  import opened Bytes
  import opened TokenGrammar
  import opened TokenSearch
  import opened Vault
  import opened JsonString

  // ----- what one `feed` computes -----

  ghost function FirstHit(keys: set<Text>, s: Text, from: nat): (i: nat)
    requires from <= |s|
    ensures from <= i <= |s|
    ensures forall x: nat | from <= x < i :: !Hit(keys, s, x)
    ensures i < |s| ==> Hit(keys, s, i)
    decreases |s| - from
  {
    if from == |s| || Hit(keys, s, from) then from else FirstHit(keys, s, from + 1)
  }

  /** Splice every complete token of the buffer: (emitted text, what is left). */
  ghost function Drain(v: map<Text, Text>, buf: Text): (Text, Text)
    requires AllShaped(v.Keys)
    decreases |buf|
  {
    var i := FirstHit(v.Keys, buf, 0);
    if i == |buf| then ([], buf)
    else
      var k := HitKey(v.Keys, buf, i);
      var (o, r) := Drain(v, buf[i + |k|..]);
      (buf[..i] + v[k] + o, r)
  }

  /** Round a byte offset down to a character boundary. */
  function RoundDown(buf: Text, w: nat): (r: nat)
    requires w <= |buf|
    ensures r <= w && CharBoundary(buf, r)
    ensures forall x | r < x <= w :: x < |buf| && IsContinuation(buf[x])
  {
    if w == 0 || CharBoundary(buf, w) then w else RoundDown(buf, w - 1)
  }

  function RawWindow(m: nat, buf: Text): (w: nat)
    requires m >= 1
    ensures w <= |buf|
  {
    if |buf| > m - 1 then |buf| - (m - 1) else 0
  }

  /** How much of a token-free buffer is emitted: up to the first `<` in the window of the last
      `max_token_len - 1` bytes, the window rounded down to a character boundary. */
  function EmitLength(m: nat, buf: Text): (keep: nat)
    requires m >= 1
    ensures keep <= |buf|
  {
    FindByte(buf, LT, RoundDown(buf, RawWindow(m, buf)))
  }

  /** `feed`: (emitted text, held tail). */
  ghost function FeedSpec(v: map<Text, Text>, m: nat, buf: Text, fragment: Text): (Text, Text)
    requires AllShaped(v.Keys) && m >= 1
  {
    var (o, r) := Drain(v, buf + fragment);
    var keep := EmitLength(m, r);
    (o + r[..keep], r[keep..])
  }

  // ----- draining -----

  lemma {:induction false} DrainNothing(v: map<Text, Text>, buf: Text)
    requires AllShaped(v.Keys) && NoHits(v.Keys, buf)
    ensures Drain(v, buf) == ([], buf)
  {
  }

  lemma {:induction false} OccursHere(s: Text, a: nat, b: nat)
    requires a <= b <= |s|
    ensures Occurs(s[a..b], s, a)
  {
  }

  lemma {:induction false} DrainStep(v: map<Text, Text>, buf: Text, a: nat, b: nat)
    requires AllShaped(v.Keys) && a < b <= |buf| && buf[a..b] in v.Keys
    requires forall i: nat | i < a :: !Hit(v.Keys, buf, i)
    ensures var (o, r) := Drain(v, buf[b..]);
            Drain(v, buf) == (buf[..a] + v[buf[a..b]] + o, r)
  {
    hide Hit, FirstHit, HitKey, Occurs, AllShaped;
    var k := buf[a..b];
    assert Occurs(k, buf, a) by { OccursHere(buf, a, b); }
    HitKeyUnique(v.Keys, buf, a, k);
    assert FirstHit(v.Keys, buf, 0) == a;
    assert buf[a + |k|..] == buf[b..];
  }

  /** A complete leftmost token stays leftmost whatever follows. */
  lemma {:induction false} ExtensionKeepsFirst(keys: set<Text>, buf: Text, a: nat, k: Text, x: Text)
    requires AllShaped(keys) && k in keys && Occurs(k, buf, a)
    requires forall i: nat | i < a :: !Hit(keys, buf, i)
    ensures Occurs(k, buf + x, a)
    ensures forall i: nat | i < a :: !Hit(keys, buf + x, i)
  {
    OccursExtend(k, buf, x, a);
    forall i: nat | i < a ensures !Hit(keys, buf + x, i) {
      if Hit(keys, buf + x, i) {
        EarlierHitWasThere(keys, buf, a, k, x, i);
        assert false;
      }
    }
  }

  lemma {:induction false} EarlierHitWasThere(keys: set<Text>, buf: Text, a: nat, k: Text, x: Text, i: nat)
    requires AllShaped(keys) && k in keys && Occurs(k, buf, a)
    requires i < a && Hit(keys, buf + x, i)
    ensures Hit(keys, buf, i)
  {
    var k' := HitKey(keys, buf + x, i);
    OccursExtend(k, buf, x, a);
    if i + |k'| > a {
      NoOverlap(k', k, buf + x, i, a);
    }
    OccursExtend(k', buf, x, i);
  }

  lemma {:induction false} DrainRest(v: map<Text, Text>, buf: Text)
    requires AllShaped(v.Keys)
    ensures NoHits(v.Keys, Drain(v, buf).1)
    ensures |Drain(v, buf).1| <= |buf| && Drain(v, buf).1 == buf[|buf| - |Drain(v, buf).1|..]
    decreases |buf|
  {
    hide Hit;
    var i := FirstHit(v.Keys, buf, 0);
    if i < |buf| {
      DrainRest(v, buf[i + |HitKey(v.Keys, buf, i)|..]);
    }
  }

  /** Whatever comes next, draining and then restoring is restoring. */
  lemma {:induction false} DrainOk(v: map<Text, Text>, buf: Text, x: Text)
    requires AllShaped(v.Keys)
    ensures Drain(v, buf).0 + Restore(v, Drain(v, buf).1 + x) == Restore(v, buf + x)
    decreases |buf|
  {
    hide Restore, Hit, Drain;
    var i := FirstHit(v.Keys, buf, 0);
    if i == |buf| {
      DrainNothing(v, buf);
      assert [] + Restore(v, buf + x) == Restore(v, buf + x);
    } else {
      var k := HitKey(v.Keys, buf, i);
      var end := i + |k|;
      var (o, r) := Drain(v, buf[end..]);
      DrainStep(v, buf, i, end);
      DrainOk(v, buf[end..], x);
      ExtensionKeepsFirst(v.Keys, buf, i, k, x);
      RestoreAt(v, buf + x, i, k);
      assert (buf + x)[..i] == buf[..i];
      assert (buf + x)[end..] == buf[end..] + x;
      assert buf[..i] + v[k] + (o + Restore(v, r + x)) == buf[..i] + v[k] + o + Restore(v, r + x);
    }
  }

  /** Draining cuts only after a `>`: what is left is still well-formed UTF-8. */
  lemma {:induction false} DrainValid(v: map<Text, Text>, buf: Text)
    requires AllShaped(v.Keys) && ValidUtf8(buf)
    ensures ValidUtf8(Drain(v, buf).1)
    decreases |buf|
  {
    hide ValidUtf8;
    var i := FirstHit(v.Keys, buf, 0);
    if i < |buf| {
      var k := HitKey(v.Keys, buf, i);
      TokenBoundaries(buf, k, i);
      ValidSplit(buf, i + |k|);
      DrainValid(v, buf[i + |k|..]);
    }
  }

  lemma {:induction false} TokenBoundaries(buf: Text, k: Text, i: nat)
    requires ValidUtf8(buf) && Shaped(k) && Occurs(k, buf, i)
    ensures CharBoundary(buf, i) && CharBoundary(buf, i + |k|)
  {
    OccurrenceBounds(k, buf, i);
    if i + |k| < |buf| {
      AsciiStandsAlone(buf, i + |k| - 1);
    }
  }

  // ----- holding back -----

  /** No token of at most `m` bytes can start in the part that is emitted. */
  lemma {:induction false} NothingStartsBefore(keys: set<Text>, m: nat, buf: Text, x: Text)
    requires AllShaped(keys) && m >= 1 && (forall k | k in keys :: |k| <= m)
    requires NoHits(keys, buf)
    ensures forall i: nat | i < EmitLength(m, buf) :: !Hit(keys, buf + x, i)
  {
    forall i: nat | i < EmitLength(m, buf) ensures !Hit(keys, buf + x, i) {
      if Hit(keys, buf + x, i) {
        EmittedHitWasThere(keys, m, buf, x, i);
        assert false;
      }
    }
  }

  lemma {:induction false} EmittedHitWasThere(keys: set<Text>, m: nat, buf: Text, x: Text, i: nat)
    requires AllShaped(keys) && m >= 1 && (forall k | k in keys :: |k| <= m)
    requires i < EmitLength(m, buf) && Hit(keys, buf + x, i)
    ensures Hit(keys, buf, i)
  {
    var k := HitKey(keys, buf + x, i);
    OccurrenceBounds(k, buf + x, i);
    assert buf[i] == LT;
    assert i < RoundDown(buf, RawWindow(m, buf));
    OccursExtend(k, buf, x, i);
  }

  lemma {:induction false} HoldOk(v: map<Text, Text>, m: nat, buf: Text, x: Text)
    requires AllShaped(v.Keys) && m >= 1 && (forall k | k in v.Keys :: |k| <= m)
    requires NoHits(v.Keys, buf)
    ensures var keep := EmitLength(m, buf);
            buf[..keep] + Restore(v, buf[keep..] + x) == Restore(v, buf + x)
  {
    hide Restore, NoHits;
    var keep := EmitLength(m, buf);
    NothingStartsBefore(v.Keys, m, buf, x);
    RestoreSkip(v, buf + x, keep);
    assert (buf + x)[..keep] == buf[..keep] && (buf + x)[keep..] == buf[keep..] + x;
  }

  /** The held tail fits in `max_token_len - 1` bytes even after boundary rounding, because a
      byte the rounding skips back over is never a `<`. */
  lemma {:induction false} HoldBound(m: nat, buf: Text)
    requires m >= 1 && ValidUtf8(buf)
    ensures |buf| - EmitLength(m, buf) <= m - 1
    ensures CharBoundary(buf, EmitLength(m, buf)) && ValidUtf8(buf[EmitLength(m, buf)..])
  {
    hide ValidUtf8;
    var w, keep := RawWindow(m, buf), EmitLength(m, buf);
    var r := RoundDown(buf, w);
    if r < w && keep == r {
      AsciiStandsAlone(buf, r);
      assert false;
    }
    assert keep >= w;
    ValidSplit(buf, keep);
  }

  // ----- one feed, whole streams -----

  /** What the source promises of the held tail after every feed. */
  ghost predicate HeldTailOk(keys: set<Text>, m: nat, held: Text) {
    && NoHits(keys, held) && (held == [] || held[0] == LT)
    && |held| < m && ValidUtf8(held)
  }

  lemma {:induction false} SuffixNoHits(keys: set<Text>, s: Text, a: nat)
    requires a <= |s| && NoHits(keys, s)
    ensures NoHits(keys, s[a..])
  {
    forall i: nat | i < |s| - a ensures !Hit(keys, s[a..], i) {
      HitShift(keys, s, a, i);
    }
  }

  /** One feed neither loses nor invents text, whatever comes next. */
  lemma {:induction false} FeedOk(v: map<Text, Text>, m: nat, buf: Text, fragment: Text, x: Text)
    requires AllShaped(v.Keys) && m >= 1 && (forall k | k in v.Keys :: |k| <= m)
    ensures var (o, held) := FeedSpec(v, m, buf, fragment);
            o + Restore(v, held + x) == Restore(v, buf + fragment + x)
  {
    hide Restore, Drain, NoHits, EmitLength;
    var (o, r) := Drain(v, buf + fragment);
    DrainOk(v, buf + fragment, x);
    DrainRest(v, buf + fragment);
    HoldOk(v, m, r, x);
    var keep := EmitLength(m, r);
    assert o + (r[..keep] + Restore(v, r[keep..] + x)) == o + r[..keep] + Restore(v, r[keep..] + x);
  }

  lemma {:induction false} FeedHolds(v: map<Text, Text>, m: nat, buf: Text, fragment: Text)
    requires AllShaped(v.Keys) && m >= 1 && ValidUtf8(buf) && ValidUtf8(fragment)
    ensures HeldTailOk(v.Keys, m, FeedSpec(v, m, buf, fragment).1)
  {
    hide ValidUtf8, Drain, NoHits;
    ValidConcat(buf, fragment);
    var r := Drain(v, buf + fragment).1;
    DrainRest(v, buf + fragment);
    DrainValid(v, buf + fragment);
    HoldBound(m, r);
    SuffixNoHits(v.Keys, r, EmitLength(m, r));
  }

  /** A whole stream: the outputs of the feeds, concatenated, and the held tail at the end. */
  ghost function FeedAll(v: map<Text, Text>, m: nat, buf: Text, fragments: seq<Text>): (Text, Text)
    requires AllShaped(v.Keys) && m >= 1
    decreases |fragments|
  {
    if fragments == [] then ([], buf)
    else
      var (o, held) := FeedSpec(v, m, buf, fragments[0]);
      var (o', held') := FeedAll(v, m, held, fragments[1..]);
      (o + o', held')
  }

  lemma {:induction false} FeedAllOk(v: map<Text, Text>, m: nat, buf: Text, fragments: seq<Text>)
    requires AllShaped(v.Keys) && m >= 1 && (forall k | k in v.Keys :: |k| <= m)
    requires NoHits(v.Keys, buf)
    ensures var (o, held) := FeedAll(v, m, buf, fragments);
            && o + Restore(v, held) == Restore(v, buf + Concat(fragments))
            && NoHits(v.Keys, held)
    decreases |fragments|
  {
    hide Restore, FeedSpec, NoHits;
    if fragments == [] {
      assert buf + Concat(fragments) == buf;
      assert [] + Restore(v, buf) == Restore(v, buf);
    } else {
      var (o, held) := FeedSpec(v, m, buf, fragments[0]);
      var rest := Concat(fragments[1..]);
      FeedNoHits(v, m, buf, fragments[0]);
      FeedAllOk(v, m, held, fragments[1..]);
      FeedOk(v, m, buf, fragments[0], rest);
      var (o', held') := FeedAll(v, m, held, fragments[1..]);
      assert o + (o' + Restore(v, held')) == o + o' + Restore(v, held');
      assert buf + fragments[0] + rest == buf + Concat(fragments);
    }
  }

  lemma {:induction false} FeedNoHits(v: map<Text, Text>, m: nat, buf: Text, fragment: Text)
    requires AllShaped(v.Keys) && m >= 1
    ensures NoHits(v.Keys, FeedSpec(v, m, buf, fragment).1)
  {
    hide Drain, NoHits, EmitLength;
    var r := Drain(v, buf + fragment).1;
    DrainRest(v, buf + fragment);
    SuffixNoHits(v.Keys, r, EmitLength(m, r));
  }

  /** Streaming restore refines one-shot restore: for every vault and every fragmentation, the
      feeds' outputs followed by the flushed tail are the one-shot restore of the whole text. */
  lemma {:induction false} StreamRefinesOneShot(v: map<Text, Text>, m: nat, fragments: seq<Text>)
    requires AllShaped(v.Keys) && m >= 1 && (forall k | k in v.Keys :: |k| <= m)
    ensures var (o, held) := FeedAll(v, m, [], fragments);
            o + held == Restore(v, Concat(fragments))
  {
    hide Restore, FeedAll, NoHits;
    assert NoHits(v.Keys, []) by { EmptyHasNoHits(v.Keys); }
    FeedAllOk(v, m, [], fragments);
    var (o, held) := FeedAll(v, m, [], fragments);
    RestoreNothing(v, held);
    assert [] + Concat(fragments) == Concat(fragments);
  }

  lemma {:induction false} EmptyHasNoHits(keys: set<Text>)
    ensures NoHits(keys, [])
  {
  }

  // ----- the object -----

  /** The originals as a channel splices them: escaped on the tool-argument channel. */
  function Spliced(json: bool, v: map<Text, Text>): (w: map<Text, Text>)
    ensures w.Keys == v.Keys
  {
    if json then EscapedOriginals(v) else v
  }

  /** `RestoreStream`. */
  class RestoreStream {
    const session: RedactionSession
    const maxTokenLen: nat
    const jsonEscape: bool
    var buffer: Text

    ghost function Originals(): map<Text, Text>
      reads this, session
    {
      Spliced(jsonEscape, session.tokenToOriginal)
    }

    ghost predicate Valid()
      reads this, session
    {
      && session.Valid() && maxTokenLen == session.engine.maxTokenLen
      && ValidUtf8(buffer)
    }

    constructor (session: RedactionSession, jsonEscape: bool)
      requires session.Valid()
      ensures Valid() && buffer == []
      ensures this.session == session && this.jsonEscape == jsonEscape
    {
      this.session := session;
      this.jsonEscape := jsonEscape;
      maxTokenLen := session.engine.maxTokenLen;
      buffer := [];
    }

    lemma {:induction false} VaultFits()
      requires Valid()
      ensures AllShaped(Originals().Keys) && maxTokenLen >= 16
      ensures forall k | k in Originals().Keys :: |k| <= maxTokenLen
    {
      VaultTokensFit(session.engine, session.State());
    }

    method Feed(fragment: Text) returns (out: Text)
      requires Valid() && ValidUtf8(fragment)
      modifies this, session`automaton
      ensures Valid() && session.State() == old(session.State())
      ensures AllShaped(Originals().Keys) && maxTokenLen >= 1
      ensures (out, buffer) == FeedSpec(Originals(), maxTokenLen, old(buffer), fragment)
      ensures HeldTailOk(Originals().Keys, maxTokenLen, buffer)
    {
      hide ValidUtf8, Drain, VaultInv, ValidEngine, AllShaped, HeldTailOk, EscapedOriginals;
      VaultFits();
      FeedHolds(Originals(), maxTokenLen, buffer, fragment);
      ValidConcat(buffer, fragment);
      buffer := buffer + fragment;
      out := SpliceTokens();
      var windowStart := RawWindow(maxTokenLen, buffer);
      while windowStart > 0 && !CharBoundary(buffer, windowStart)
        invariant 0 <= windowStart <= |buffer|
        invariant RoundDown(buffer, windowStart) == RoundDown(buffer, RawWindow(maxTokenLen, buffer))
      {
        windowStart := windowStart - 1;
      }
      var keep := FindByte(buffer, LT, windowStart);
      HoldBound(maxTokenLen, buffer);
      assert keep == 0 ==> out + buffer[..keep] == out && buffer[keep..] == buffer;
      if keep > 0 {
        out := out + buffer[..keep];
        buffer := buffer[keep..];
      }
    }

    /** The matching loop of `feed`: every complete token in the buffer is spliced. */
    method SpliceTokens() returns (out: Text)
      requires Valid()
      modifies this, session`automaton
      ensures Valid() && session.State() == old(session.State())
      ensures AllShaped(Originals().Keys)
      ensures (out, buffer) == Drain(Originals(), old(buffer))
    {
      hide ValidUtf8, Drain, NoHits, VaultInv, ValidEngine, Shaped, Hit;
      VaultFits();
      ghost var v, whole := Originals(), buffer;
      out := [];
      assert [] + Drain(v, whole).0 == Drain(v, whole).0;
      while true
        invariant Valid() && session.State() == old(session.State())
        invariant Drain(v, whole) == (out + Drain(v, buffer).0, Drain(v, buffer).1)
        decreases |buffer|
      {
        var matched := FirstMatch();
        if matched.None? {
          DrainNothing(v, buffer);
          assert out + [] == out;
          break;
        }
        var (start, end) := matched.value;
        DrainStep(v, buffer, start, end);
        ValidSplit(buffer, end);
        var token := buffer[start..end];
        var original := if token in session.tokenToOriginal then session.tokenToOriginal[token] else token;
        var spliced := if jsonEscape then Escape(original) else original;
        ghost var rest := Drain(v, buffer[end..]);
        Reassociate(out, buffer[..start], spliced, rest.0);
        out := out + buffer[..start] + spliced;
        buffer := buffer[end..];
      }
    }

    /** `with_automaton(|ac| ac.find(&self.buffer))`. */
    method FirstMatch() returns (r: Option<(nat, nat)>)
      requires Valid()
      modifies session`automaton
      ensures Valid() && session.State() == old(session.State())
      ensures r.None? ==> NoHits(session.tokenToOriginal.Keys, buffer)
      ensures r.Some? ==>
                var (a, b) := r.value;
                && a < b <= |buffer| && buffer[a..b] in session.tokenToOriginal.Keys
                && (forall i: nat | i < a :: !Hit(session.tokenToOriginal.Keys, buffer, i))
                && CharBoundary(buffer, a) && CharBoundary(buffer, b)
    {
      hide VaultInv, ValidEngine, ValidUtf8;
      VaultFits();
      var patterns := session.Automaton();
      if patterns.None? {
        assert session.tokenToOriginal.Keys == {};
        return None;
      }
      assert forall p | 0 <= p < |patterns.value| :: patterns.value[p] in KeySet(patterns.value);
      r := FindFrom(patterns.value, buffer, 0);
      if r.Some? {
        TokenBoundaries(buffer, buffer[r.value.0..r.value.1], r.value.0);
      }
    }

    method Finish() returns (tail: Text)
      requires Valid()
      modifies this
      ensures Valid() && tail == old(buffer) && buffer == []
    {
      tail := buffer;
      buffer := [];
    }
  }
}
