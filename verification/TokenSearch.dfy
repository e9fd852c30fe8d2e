/** Searching a text for vault tokens, and one-shot restore
    (src/core/privacy.rs, `restore_text`; Aho-Corasick as a naive leftmost-first search). */
module TokenSearch {
  import opened Bytes
  import opened TokenGrammar

  predicate Occurs(k: Text, s: Text, i: nat) {
    i + |k| <= |s| && s[i..i + |k|] == k
  }

  predicate AllShaped(keys: set<Text>) { forall k | k in keys :: Shaped(k) }

  /** Some key occurs at `i`. */
  ghost predicate Hit(keys: set<Text>, s: Text, i: nat) {
    exists k :: k in keys && Occurs(k, s, i)
  }

  ghost function HitKey(keys: set<Text>, s: Text, i: nat): (k: Text)
    requires Hit(keys, s, i)
    ensures k in keys && Occurs(k, s, i)
  {
    var k :| k in keys && Occurs(k, s, i);
    k
  }

  ghost predicate NoHits(keys: set<Text>, s: Text) {
    forall i: nat | i < |s| :: !Hit(keys, s, i)
  }

  /** An occurrence starts at a `<` and ends at the first `>` after it. */
  lemma {:induction false} OccurrenceBounds(k: Text, s: Text, i: nat)
    requires Shaped(k) && Occurs(k, s, i)
    ensures s[i] == LT && s[i + |k| - 1] == GT
    ensures forall x | i < x < i + |k| - 1 :: IsNameByte(s[x])
  {
    forall x | i <= x < i + |k| ensures s[x] == k[x - i] {
      assert s[i..i + |k|][x - i] == k[x - i];
    }
  }

  /** The combinatorial fact everything rests on: two token occurrences that share a byte
      are the same occurrence of the same token. */
  lemma {:induction false} NoOverlap(k1: Text, k2: Text, s: Text, i: nat, j: nat)
    requires Shaped(k1) && Shaped(k2)
    requires Occurs(k1, s, i) && Occurs(k2, s, j)
    requires i <= j < i + |k1|
    ensures i == j && k1 == k2
  {
    OccurrenceBounds(k1, s, i);
    OccurrenceBounds(k2, s, j);
    assert i == j;
    assert |k1| == |k2|;
  }

  /** No token is a proper prefix of another. */
  lemma {:induction false} PrefixFree(k1: Text, k2: Text)
    requires Shaped(k1) && Shaped(k2) && k1 <= k2
    ensures k1 == k2
  {
    NoOverlap(k2, k1, k2, 0, 0);
  }

  /** Tokens of an accepted engine: equal, or neither a prefix of the other nor overlapping
      it anywhere in any text; equal only for the same template and counter. */
  lemma {:induction false} AcceptedTokensSeparate(ts: seq<Text>, i: nat, j: nat, n: nat, m: nat, s: Text, p: nat, q: nat)
    requires Accepted(ts) && i < |ts| && j < |ts| && n >= 1 && m >= 1
    requires Occurs(ReplaceSlot(ts[i], Decimal(n)), s, p)
    requires Occurs(ReplaceSlot(ts[j], Decimal(m)), s, q)
    requires p <= q < p + |ReplaceSlot(ts[i], Decimal(n))|
    ensures p == q && i == j && n == m
  {
    MintedShape(ts[i], n);
    MintedShape(ts[j], m);
    ValidateTemplateExact(ts[i]);
    ValidateTemplateExact(ts[j]);
    TokenIsShaped(TemplatePrefix(ts[i]), n);
    TokenIsShaped(TemplatePrefix(ts[j]), m);
    NoOverlap(ReplaceSlot(ts[i], Decimal(n)), ReplaceSlot(ts[j], Decimal(m)), s, p, q);
    TokensDistinct(ts, i, j, n, m);
  }

  lemma {:induction false} HitKeyUnique(keys: set<Text>, s: Text, i: nat, k: Text)
    requires AllShaped(keys) && k in keys && Occurs(k, s, i)
    ensures Hit(keys, s, i) && HitKey(keys, s, i) == k
  {
    NoOverlap(HitKey(keys, s, i), k, s, i, i);
  }

  lemma {:induction false} OccursShift(k: Text, s: Text, a: nat, i: nat)
    requires a <= |s|
    ensures Occurs(k, s[a..], i) <==> Occurs(k, s, a + i)
  {
    if i + |k| <= |s| - a {
      assert s[a..][i..i + |k|] == s[a + i..a + i + |k|];
    }
  }

  lemma {:induction false} HitShift(keys: set<Text>, s: Text, a: nat, i: nat)
    requires a <= |s|
    ensures Hit(keys, s[a..], i) <==> Hit(keys, s, a + i)
  {
    forall k ensures Occurs(k, s[a..], i) <==> Occurs(k, s, a + i) {
      OccursShift(k, s, a, i);
    }
  }

  lemma {:induction false} OccursExtend(k: Text, s: Text, x: Text, i: nat)
    ensures Occurs(k, s, i) ==> Occurs(k, s + x, i)
    ensures Occurs(k, s + x, i) && i + |k| <= |s| ==> Occurs(k, s, i)
  {
    if i + |k| <= |s| {
      assert (s + x)[i..i + |k|] == s[i..i + |k|];
    }
  }

  // ----- one-shot restore: the reference definition -----

  /** Replace every vault token by its original, scanning left to right. */
  ghost function Restore(v: map<Text, Text>, s: Text): Text
    requires AllShaped(v.Keys)
    decreases |s|
  {
    if s == [] then []
    else if Hit(v.Keys, s, 0) then
      var k := HitKey(v.Keys, s, 0);
      v[k] + Restore(v, s[|k|..])
    else [s[0]] + Restore(v, s[1..])
  }

  /** Text in which no token starts before `n` passes through unchanged up to `n`. */
  lemma {:induction false} RestoreSkip(v: map<Text, Text>, s: Text, n: nat)
    requires AllShaped(v.Keys) && n <= |s|
    requires forall i: nat | i < n :: !Hit(v.Keys, s, i)
    ensures Restore(v, s) == s[..n] + Restore(v, s[n..])
    decreases n
  {
    hide Hit, AllShaped;
    if n == 0 {
      assert s[0..] == s;
      assert [] + Restore(v, s) == Restore(v, s);
    } else {
      forall i: nat | i < n - 1 ensures !Hit(v.Keys, s[1..], i) {
        HitShift(v.Keys, s, 1, i);
      }
      RestoreSkip(v, s[1..], n - 1);
      assert s[1..][n - 1..] == s[n..];
      assert s[..n] == [s[0]] + s[1..][..n - 1];
      Assoc([s[0]], s[1..][..n - 1], Restore(v, s[n..]));
    }
  }

  /** The leftmost token is spliced; what follows is restored on its own. */
  lemma {:induction false} RestoreAt(v: map<Text, Text>, s: Text, a: nat, k: Text)
    requires AllShaped(v.Keys) && k in v.Keys && Occurs(k, s, a)
    requires forall i: nat | i < a :: !Hit(v.Keys, s, i)
    ensures Restore(v, s) == s[..a] + v[k] + Restore(v, s[a + |k|..])
  {
    RestoreSkip(v, s, a);
    OccursShift(k, s, a, 0);
    HitKeyUnique(v.Keys, s[a..], 0, k);
    assert s[a..][|k|..] == s[a + |k|..];
  }

  lemma {:induction false} RestoreNothing(v: map<Text, Text>, s: Text)
    requires AllShaped(v.Keys) && NoHits(v.Keys, s)
    ensures Restore(v, s) == s
  {
    RestoreSkip(v, s, |s|);
    assert s[|s|..] == [] && s[..|s|] == s;
  }

  // ----- the naive automaton -----

  function KeySet(patterns: seq<Text>): set<Text> { set k | k in patterns }

  /** `AhoCorasick::find` from `from` under `MatchKind::LeftmostFirst`: the leftmost position
      at which a pattern occurs, and the first pattern in list order that occurs there. */
  method FindFrom(patterns: seq<Text>, s: Text, from: nat) returns (r: Option<(nat, nat)>)
    requires from <= |s|
    requires forall p | 0 <= p < |patterns| :: Shaped(patterns[p])
    ensures r.None? ==> forall i: nat | from <= i < |s| :: !Hit(KeySet(patterns), s, i)
    ensures r.Some? ==>
              var (a, b) := r.value;
              && from <= a < b <= |s| && s[a..b] in patterns && Occurs(s[a..b], s, a)
              && forall i: nat | from <= i < a :: !Hit(KeySet(patterns), s, i)
    ensures r.Some? ==>
              exists p | 0 <= p < |patterns| ::
                s[r.value.0..r.value.1] == patterns[p] && forall q | 0 <= q < p :: !Occurs(patterns[q], s, r.value.0)
  {
    var i := from;
    while i < |s|
      invariant from <= i <= |s|
      invariant forall x: nat | from <= x < i :: !Hit(KeySet(patterns), s, x)
    {
      var p := 0;
      while p < |patterns|
        invariant 0 <= p <= |patterns|
        invariant forall q | 0 <= q < p :: !Occurs(patterns[q], s, i)
      {
        if Occurs(patterns[p], s, i) {
          return Some((i, i + |patterns[p]|));
        }
        p := p + 1;
      }
      i := i + 1;
    }
    return None;
  }

  /** What `find_iter` yields: every occurrence, in order. */
  ghost predicate AllOccurrences(keys: set<Text>, s: Text, spans: seq<(nat, nat)>) {
    && (forall x | 0 <= x < |spans| :: spans[x].0 < spans[x].1 <= |s|
                                       && s[spans[x].0..spans[x].1] in keys)
    && (forall x, y | 0 <= x < y < |spans| :: spans[x].1 <= spans[y].0)
    && (forall i: nat | i < |s| && Hit(keys, s, i) ::
          exists x | 0 <= x < |spans| :: spans[x].0 == i)
  }

  /** `AhoCorasick::find_iter`, collected: because tokens cannot overlap, resuming after each
      match misses no occurrence, whatever order the patterns are listed in. */
  method FindIter(patterns: seq<Text>, s: Text) returns (spans: seq<(nat, nat)>)
    requires forall p | 0 <= p < |patterns| :: Shaped(patterns[p])
    ensures AllOccurrences(KeySet(patterns), s, spans)
  {
    ghost var keys := KeySet(patterns);
    spans := [];
    var from := 0;
    while true
      invariant 0 <= from <= |s|
      invariant forall x | 0 <= x < |spans| :: spans[x].0 < spans[x].1 <= from
                                               && s[spans[x].0..spans[x].1] in keys
      invariant forall x, y | 0 <= x < y < |spans| :: spans[x].1 <= spans[y].0
      invariant forall i: nat | i < from && Hit(keys, s, i) ::
                  exists x | 0 <= x < |spans| :: spans[x].0 == i
      decreases |s| - from
    {
      var r := FindFrom(patterns, s, from);
      if r.None? {
        break;
      }
      var (a, b) := r.value;
      ghost var before := spans;
      spans := spans + [(a, b)];
      forall i: nat | i < b && Hit(keys, s, i)
        ensures exists x | 0 <= x < |spans| :: spans[x].0 == i
      {
        if i < from {
          var x :| 0 <= x < |before| && before[x].0 == i;
          assert spans[x].0 == i;
        } else if a <= i {
          NoOverlap(s[a..b], HitKey(keys, s, i), s, a, i);
          assert spans[|before|].0 == i;
        }
      }
      from := b;
    }
  }

  function PrevEnd(spans: seq<(nat, nat)>, x: nat): nat
    requires x <= |spans|
  {
    if x == 0 then 0 else spans[x - 1].1
  }

  function NextStart(spans: seq<(nat, nat)>, x: nat, end: nat): nat
    requires x <= |spans|
  {
    if x == |spans| then end else spans[x].0
  }

  /** No token starts between two consecutive spans of `find_iter`. */
  lemma {:induction false} GapHasNoHits(keys: set<Text>, s: Text, spans: seq<(nat, nat)>, x: nat)
    requires AllOccurrences(keys, s, spans) && x <= |spans|
    ensures PrevEnd(spans, x) <= NextStart(spans, x, |s|) <= |s|
    ensures forall i: nat | PrevEnd(spans, x) <= i < NextStart(spans, x, |s|) :: !Hit(keys, s, i)
  {
    forall i: nat | PrevEnd(spans, x) <= i < NextStart(spans, x, |s|) ensures !Hit(keys, s, i) {
      if Hit(keys, s, i) {
        assert false;
      }
    }
  }

  lemma {:induction false} NoHitsShift(keys: set<Text>, s: Text, a: nat, b: nat)
    requires a <= b <= |s|
    requires forall i: nat | a <= i < b :: !Hit(keys, s, i)
    ensures forall i: nat | i < b - a :: !Hit(keys, s[a..], i)
  {
    forall i: nat | i < b - a ensures !Hit(keys, s[a..], i) {
      HitShift(keys, s, a, i);
    }
  }

  lemma {:induction false} SpliceStep(v: map<Text, Text>, text: Text, last: nat, a: nat, b: nat, out: Text)
    requires AllShaped(v.Keys) && last <= a < b <= |text| && text[a..b] in v.Keys
    requires forall i: nat | last <= i < a :: !Hit(v.Keys, text, i)
    ensures out + Restore(v, text[last..]) == out + text[last..a] + v[text[a..b]] + Restore(v, text[b..])
  {
    hide Restore;
    var s, n, token := text[last..], a - last, text[a..b];
    OccursShift(token, text, last, n);
    NoHitsShift(v.Keys, text, last, a);
    RestoreAt(v, s, n, token);
    assert s[..n] == text[last..a];
    assert s[n + |token|..] == text[b..];
  }

  /** `restore_text` over the automaton's patterns: the loop with the `last` cursor. */
  method RestoreText(patterns: seq<Text>, v: map<Text, Text>, text: Text) returns (out: Text)
    requires AllShaped(v.Keys) && KeySet(patterns) == v.Keys
    ensures out == Restore(v, text)
  {
    hide Restore;
    assert forall p | 0 <= p < |patterns| :: patterns[p] in KeySet(patterns);
    var spans := FindIter(patterns, text);
    out := [];
    var last, x := 0, 0;
    assert text[0..] == text;
    while x < |spans|
      invariant 0 <= x <= |spans| && last == PrevEnd(spans, x) <= |text|
      invariant out + Restore(v, text[last..]) == Restore(v, text)
    {
      var (a, b) := spans[x];
      GapHasNoHits(v.Keys, text, spans, x);
      var token := text[a..b];
      SpliceStep(v, text, last, a, b, out);
      var original := if token in v then v[token] else token;
      out := out + text[last..a] + original;
      last := b;
      x := x + 1;
    }
    GapHasNoHits(v.Keys, text, spans, x);
    NoHitsShift(v.Keys, text, last, |text|);
    RestoreNothing(v, text[last..]);
    out := out + text[last..];
  }
}
