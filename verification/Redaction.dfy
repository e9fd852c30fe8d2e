/** Redaction of a text by an ordered list of rules, and its inverse
    (src/core/privacy.rs, `redact_text`, `token_for`, `restore_text`). */
module Redaction {
  import opened Bytes
  import opened TokenGrammar
  import opened TokenSearch
  import opened Vault

  // ----- what redaction computes -----

  /** A rule's match overlaps a token minted earlier. */
  ghost predicate Touches(keys: set<Text>, s: Text, a: nat, b: nat) {
    exists k, i: nat :: k in keys && Occurs(k, s, i) && a < i + |k| && i < b
  }

  /** One rule over one text: `keys` are the tokens in the vault when the pass starts, `last`
      and `done` the loop's cursor and the output so far. */
  ghost function RedactSpans(e: Engine, i: nat, st: VaultState, keys: set<Text>, s: Text,
                             spans: seq<Span>, last: nat, done: Text): (VaultState, Result<Text>)
    requires i < |e.rules| && ValidSpans(spans, |s|) && last <= |s|
    requires spans != [] ==> last <= spans[0].0
    decreases |spans|
  {
    if spans == [] then (st, Ok(done + s[last..]))
    else
      var (a, b) := spans[0];
      if Touches(keys, s, a, b) then RedactSpans(e, i, st, keys, s, spans[1..], last, done)
      else if e.allowed(s[a..b]) then
        RedactSpans(e, i, st, keys, s, spans[1..], b, done + s[last..a] + s[a..b])
      else
        var (st', r) := Mint(e.rules[i], st, s[a..b]);
        if r.Err? then (st', r)
        else RedactSpans(e, i, st', keys, s, spans[1..], b, done + s[last..a] + r.value)
  }

  ghost function RedactRule(e: Engine, i: nat, st: VaultState, s: Text): (VaultState, Result<Text>)
    requires i < |e.rules| && RulesOk(e.rules)
  {
    assert RuleOk(e.rules[i]);
    RedactSpans(e, i, st, st.tokenToOriginal.Keys, s, e.rules[i].matches(s), 0, [])
  }

  /** `redact_text` from rule `i` on: rules apply in order, each to the previous one's output. */
  ghost function RedactRules(e: Engine, i: nat, st: VaultState, s: Text): (VaultState, Result<Text>)
    requires i <= |e.rules| && RulesOk(e.rules)
    decreases |e.rules| - i
  {
    if i == |e.rules| then (st, Ok(s))
    else
      var (st', r) := RedactRule(e, i, st, s);
      if r.Err? then (st', r) else RedactRules(e, i + 1, st', r.value)
  }

  // ----- text as literal bytes and tokens -----

  datatype Piece = Lit(b: byte) | Tok(t: Text)

  function Shown(p: Piece): Text { if p.Lit? then [p.b] else p.t }

  function Meant(p: Piece, v: map<Text, Text>): Text
    requires p.Tok? ==> p.t in v
  {
    if p.Lit? then [p.b] else v[p.t]
  }

  predicate ToksIn(ps: seq<Piece>, v: map<Text, Text>) {
    forall x | 0 <= x < |ps| :: ps[x].Tok? ==> ps[x].t in v
  }

  function Render(ps: seq<Piece>): Text {
    if ps == [] then [] else Shown(ps[0]) + Render(ps[1..])
  }

  function Expand(ps: seq<Piece>, v: map<Text, Text>): Text
    requires ToksIn(ps, v)
  {
    if ps == [] then [] else Meant(ps[0], v) + Expand(ps[1..], v)
  }

  lemma {:induction false} RenderConcat(p: seq<Piece>, q: seq<Piece>)
    ensures Render(p + q) == Render(p) + Render(q)
  {
    hide Shown;
    if p == [] {
      assert p + q == q;
    } else {
      var head := Shown(p[0]);
      RenderConcat(p[1..], q);
      assert (p + q)[1..] == p[1..] + q;
      assert Render(p + q) == head + Render((p + q)[1..]);
      Assoc(head, Render(p[1..]), Render(q));
    }
  }

  lemma {:induction false} ExpandConcat(p: seq<Piece>, q: seq<Piece>, v: map<Text, Text>)
    requires ToksIn(p, v) && ToksIn(q, v)
    ensures ToksIn(p + q, v) && Expand(p + q, v) == Expand(p, v) + Expand(q, v)
  {
    if p == [] {
      assert p + q == q;
    } else {
      ExpandConcat(p[1..], q, v);
      assert (p + q)[1..] == p[1..] + q;
      Assoc(Meant(p[0], v), Expand(p[1..], v), Expand(q, v));
    }
  }

  /** A larger vault gives the same meaning. */
  lemma {:induction false} ExpandGrows(ps: seq<Piece>, v: map<Text, Text>, v': map<Text, Text>)
    requires ToksIn(ps, v)
    requires forall t | t in v :: t in v' && v'[t] == v[t]
    ensures ToksIn(ps, v') && Expand(ps, v') == Expand(ps, v)
  {
    if ps != [] {
      ExpandGrows(ps[1..], v, v');
    }
  }

  /** `out` is `original` with some substrings replaced by tokens that stand for them. */
  ghost predicate Redacts(v: map<Text, Text>, out: Text, original: Text) {
    exists ps :: ToksIn(ps, v) && Render(ps) == out && Expand(ps, v) == original
  }

  // ----- restore undoes any such replacement -----

  /** The part of a token after its `<` can only be seen in literal bytes. */
  lemma {:induction false} SeenInLiterals(u: Text, ps: seq<Piece>, v: map<Text, Text>)
    requires AllShaped(v.Keys) && ToksIn(ps, v)
    requires forall x | 0 <= x < |u| :: u[x] != LT
    requires u <= Render(ps)
    ensures u <= Expand(ps, v)
  {
    if u != [] {
      assert ps != [];
      assert Render(ps)[0] == Shown(ps[0])[0];
      assert ps[0].Lit?;
      assert Render(ps)[1..] == Render(ps[1..]);
      SeenInLiterals(u[1..], ps[1..], v);
      assert u == [u[0]] + u[1..];
    }
  }

  /** Restore gives back the meaning, if the meaning itself contains no literal vault token. */
  lemma {:induction false} RestoreRender(v: map<Text, Text>, ps: seq<Piece>)
    requires AllShaped(v.Keys) && ToksIn(ps, v)
    requires NoHits(v.Keys, Expand(ps, v))
    ensures Restore(v, Render(ps)) == Expand(ps, v)
  {
    hide Restore, Hit;
    if ps == [] {
      RestoreNothing(v, []);
    } else {
      var out, rest := Render(ps), ps[1..];
      SuffixHasNoHits(v.Keys, Meant(ps[0], v), Expand(rest, v));
      RestoreRender(v, rest);
      if ps[0].Tok? {
        assert out[..|ps[0].t|] == ps[0].t && out[|ps[0].t|..] == Render(rest);
        RestoreTokenFirst(v, ps[0].t, out);
      } else {
        if Hit(v.Keys, out, 0) {
          LiteralTokenWasThere(v, ps);
          assert false;
        }
        RestoreLiteralFirst(v, out);
        assert out[1..] == Render(rest);
      }
    }
  }

  lemma {:induction false} RestoreTokenFirst(v: map<Text, Text>, t: Text, out: Text)
    requires AllShaped(v.Keys) && t in v && t <= out
    ensures Restore(v, out) == v[t] + Restore(v, out[|t|..])
  {
    hide Restore;
    assert Occurs(t, out, 0);
    RestoreAt(v, out, 0, t);
    assert out[..0] + v[t] == v[t];
  }

  lemma {:induction false} RestoreLiteralFirst(v: map<Text, Text>, out: Text)
    requires AllShaped(v.Keys) && out != [] && !Hit(v.Keys, out, 0)
    ensures Restore(v, out) == [out[0]] + Restore(v, out[1..])
  {
  }

  lemma {:induction false} SuffixHasNoHits(keys: set<Text>, a: Text, b: Text)
    requires NoHits(keys, a + b)
    ensures NoHits(keys, b)
  {
    assert (a + b)[|a|..] == b;
    forall i: nat | i < |b| ensures !Hit(keys, b, i) {
      HitShift(keys, a + b, |a|, i);
    }
  }

  lemma {:induction false} OneLtOnly(k: Text)
    requires Shaped(k)
    ensures forall x | 0 <= x < |k| - 1 :: k[1..][x] != LT
  {
    forall x | 0 <= x < |k| - 1 ensures k[1..][x] != LT {
      assert x + 1 < |k| - 1 ==> IsNameByte(k[x + 1]);
    }
  }

  lemma {:induction false} PrefixTail(k: Text, b: byte, s: Text)
    requires k != [] && Occurs(k, [b] + s, 0)
    ensures k[0] == b && k[1..] <= s
  {
    var out := [b] + s;
    assert k == out[..|k|] && out[1..] == s;
    assert k[1..] == s[..|k| - 1];
  }

  lemma {:induction false} PrefixOccurs(k: Text, b: byte, s: Text)
    requires k != [] && k[0] == b && k[1..] <= s
    ensures Occurs(k, [b] + s, 0)
  {
    assert k == [b] + k[1..];
    assert ([b] + s)[..|k|] == [b] + s[..|k| - 1];
  }

  /** A token that seems to start at a literal byte was there before redaction. */
  lemma {:induction false} LiteralTokenWasThere(v: map<Text, Text>, ps: seq<Piece>)
    requires AllShaped(v.Keys) && ToksIn(ps, v) && ps != [] && ps[0].Lit?
    requires Hit(v.Keys, Render(ps), 0)
    ensures Hit(v.Keys, Expand(ps, v), 0)
  {
    var k, u := HitKey(v.Keys, Render(ps), 0), HitKey(v.Keys, Render(ps), 0)[1..];
    PrefixTail(k, ps[0].b, Render(ps[1..]));
    OneLtOnly(k);
    SeenInLiterals(u, ps[1..], v);
    PrefixOccurs(k, ps[0].b, Expand(ps[1..], v));
  }

  // ----- one pass keeps the meaning -----

  predicate AllLits(ps: seq<Piece>) { forall x | 0 <= x < |ps| :: ps[x].Lit? }

  lemma {:induction false} LitsMeanThemselves(ps: seq<Piece>, v: map<Text, Text>)
    requires AllLits(ps)
    ensures ToksIn(ps, v) && Expand(ps, v) == Render(ps)
  {
    if ps != [] {
      LitsMeanThemselves(ps[1..], v);
    }
  }

  /** Where a piece starts in the rendered text. */
  function Offset(ps: seq<Piece>, x: nat): nat
    requires x <= |ps|
  {
    |Render(ps[..x])|
  }

  lemma {:induction false} OffsetZero(ps: seq<Piece>)
    ensures Offset(ps, 0) == 0
  {
    assert ps[..0] == [];
  }

  lemma {:induction false} OffsetStep(ps: seq<Piece>, x: nat)
    requires x < |ps|
    ensures Offset(ps, x + 1) == Offset(ps, x) + |Shown(ps[x])| <= |Render(ps)|
    ensures Render(ps)[Offset(ps, x)..Offset(ps, x + 1)] == Shown(ps[x])
  {
    assert ps[..x + 1] == ps[..x] + [ps[x]];
    RenderConcat(ps[..x], [ps[x]]);
    assert Render([ps[x]]) == Shown(ps[x]) by { assert [ps[x]][1..] == []; }
    RenderConcat(ps[..x + 1], ps[x + 1..]);
    assert ps == ps[..x + 1] + ps[x + 1..];
  }

  lemma {:induction false} OffsetMonotone(ps: seq<Piece>, x: nat, y: nat)
    requires x <= y <= |ps|
    ensures Offset(ps, x) <= Offset(ps, y)
    decreases y - x
  {
    if x < y {
      OffsetStep(ps, x);
      OffsetMonotone(ps, x + 1, y);
    }
  }

  /** A token piece is an occurrence of that token. */
  lemma {:induction false} TokOccurs(ps: seq<Piece>, x: nat)
    requires x < |ps| && ps[x].Tok?
    ensures Occurs(ps[x].t, Render(ps), Offset(ps, x))
  {
    OffsetStep(ps, x);
  }

  /** A position inside no token piece is a piece boundary. */
  lemma {:induction false} Boundary(ps: seq<Piece>, pos: nat, m: nat) returns (k: nat)
    requires m <= |ps| && pos <= Offset(ps, m)
    requires forall x | 0 <= x < |ps| && ps[x].Tok? ::
               Offset(ps, x) + |ps[x].t| <= pos || pos <= Offset(ps, x)
    ensures k <= m && Offset(ps, k) == pos
  {
    hide Offset, Render;
    if pos == Offset(ps, m) {
      return m;
    }
    OffsetZero(ps);
    OffsetStep(ps, m - 1);
    if pos < Offset(ps, m - 1) {
      k := Boundary(ps, pos, m - 1);
    } else {
      k := m - 1;
    }
  }

  /** A match that touches no token covers a run of literal pieces. */
  lemma {:induction false} Locate(ps: seq<Piece>, v: map<Text, Text>, a: nat, b: nat)
    returns (ka: nat, kb: nat)
    requires ToksIn(ps, v) && AllShaped(v.Keys) && a < b <= |Render(ps)|
    requires !Touches(v.Keys, Render(ps), a, b)
    ensures ka <= kb <= |ps| && Offset(ps, ka) == a && Offset(ps, kb) == b
    ensures AllLits(ps[ka..kb])
  {
    hide Render;
    forall x | 0 <= x < |ps| && ps[x].Tok?
      ensures Offset(ps, x) + |ps[x].t| <= a || b <= Offset(ps, x)
    {
      TokOccurs(ps, x);
    }
    assert ps[..|ps|] == ps;
    kb := Boundary(ps, b, |ps|);
    ka := Boundary(ps, a, kb);
    forall x | ka <= x < kb ensures ps[x].Lit? {
      OffsetMonotone(ps, ka, x);
      OffsetMonotone(ps, x + 1, kb);
      OffsetStep(ps, x);
    }
  }

  lemma {:induction false} RenderSlice(ps: seq<Piece>, x: nat, y: nat)
    requires x <= y <= |ps|
    ensures Offset(ps, x) <= Offset(ps, y) <= |Render(ps)|
    ensures Render(ps)[Offset(ps, x)..Offset(ps, y)] == Render(ps[x..y])
  {
    assert ps == ps[..x] + (ps[x..y] + ps[y..]);
    assert ps[..y] == ps[..x] + ps[x..y];
    RenderConcat(ps[..x], ps[x..y] + ps[y..]);
    RenderConcat(ps[x..y], ps[y..]);
    RenderConcat(ps[..x], ps[x..y]);
  }

  lemma {:induction false} RestOfPieces(ps: seq<Piece>, k: nat)
    requires k <= |ps|
    ensures Offset(ps, k) <= |Render(ps)| && Render(ps)[Offset(ps, k)..] == Render(ps[k..])
  {
    assert ps == ps[..k] + ps[k..];
    RenderConcat(ps[..k], ps[k..]);
  }

  lemma {:induction false} OffsetStrict(ps: seq<Piece>, v: map<Text, Text>, x: nat, y: nat)
    requires ToksIn(ps, v) && AllShaped(v.Keys) && x < y <= |ps|
    ensures Offset(ps, x) < Offset(ps, y)
  {
    OffsetStep(ps, x);
    OffsetMonotone(ps, x + 1, y);
  }

  ghost predicate Grows(v: map<Text, Text>, v': map<Text, Text>) {
    forall t | t in v :: t in v' && v'[t] == v[t]
  }

  /** Pieces kept as they are, in front of a rewritten tail. */
  lemma {:induction false} KeepRun(ps: seq<Piece>, k: nat, m: nat, v: map<Text, Text>,
                                   v': map<Text, Text>, qs: seq<Piece>)
    requires k <= m <= |ps| && ToksIn(ps, v) && Grows(v, v') && ToksIn(qs, v')
    requires Expand(qs, v') == Expand(ps[m..], v)
    ensures ToksIn(ps[k..m] + qs, v') && Expand(ps[k..m] + qs, v') == Expand(ps[k..], v)
    ensures Render(ps[k..m] + qs) == Render(ps[k..m]) + Render(qs)
  {
    hide Render, Expand;
    ExpandGrows(ps[k..m], v, v');
    ExpandConcat(ps[k..m], qs, v');
    ExpandConcat(ps[k..m], ps[m..], v);
    assert ps[k..] == ps[k..m] + ps[m..];
    RenderConcat(ps[k..m], qs);
  }

  /** A run of literals replaced by a token that stands for them. */
  lemma {:induction false} ReplaceRun(ps: seq<Piece>, ka: nat, kb: nat, v: map<Text, Text>,
                                      v': map<Text, Text>, token: Text, qs: seq<Piece>)
    requires ka <= kb <= |ps| && ToksIn(ps, v) && AllLits(ps[ka..kb]) && ToksIn(qs, v')
    requires token in v' && v'[token] == Render(ps[ka..kb])
    requires Expand(qs, v') == Expand(ps[kb..], v)
    ensures ToksIn([Tok(token)] + qs, v')
    ensures Expand([Tok(token)] + qs, v') == Expand(ps[ka..], v)
    ensures Render([Tok(token)] + qs) == token + Render(qs)
  {
    var one := [Tok(token)];
    assert (one + qs)[1..] == qs;
    LitsMeanThemselves(ps[ka..kb], v);
    ExpandConcat(ps[ka..kb], ps[kb..], v);
    assert ps[ka..] == ps[ka..kb] + ps[kb..];
  }

  lemma {:induction false} ExtendsTransitive(a: VaultState, b: VaultState, c: VaultState)
    requires Extends(a, b) && Extends(b, c)
    ensures Extends(a, c)
  {
  }

  /** The outcome of a pass from piece `k` on: the vault only grew, and the output is `done`
      followed by a redaction `qs` of what the pieces from `k` on mean. */
  ghost predicate PassKeeps(e: Engine, st: VaultState, out: (VaultState, Result<Text>), done: Text,
                            qs: seq<Piece>, ps: seq<Piece>, k: nat, v0: map<Text, Text>)
    requires k <= |ps| && ToksIn(ps, v0)
  {
    var v' := out.0.tokenToOriginal;
    && VaultInv(e.rules, out.0) && Extends(st, out.0)
    && (out.1.Ok? ==> && ToksIn(qs, v') && out.1.value == done + Render(qs)
                      && Expand(qs, v') == Expand(ps[k..], v0))
  }

  lemma {:induction false} KeepGlue(e: Engine, st: VaultState, out: (VaultState, Result<Text>), done: Text,
                                    more: seq<Piece>, ps: seq<Piece>, k: nat, m: nat, v0: map<Text, Text>)
    requires k <= m <= |ps| && ToksIn(ps, v0) && Grows(v0, st.tokenToOriginal)
    requires PassKeeps(e, st, out, done + Render(ps[k..m]), more, ps, m, v0)
    ensures PassKeeps(e, st, out, done, ps[k..m] + more, ps, k, v0)
  {
    hide VaultInv, Render, Expand;
    if out.1.Ok? {
      KeepRun(ps, k, m, v0, out.0.tokenToOriginal, more);
      assert done + Render(ps[k..m]) + Render(more) == done + (Render(ps[k..m]) + Render(more));
    }
  }

  lemma {:induction false} TokenGlue(e: Engine, st: VaultState, st1: VaultState, out: (VaultState, Result<Text>),
                                     done: Text, token: Text, more: seq<Piece>, ps: seq<Piece>,
                                     ka: nat, kb: nat, v0: map<Text, Text>)
    requires ka <= kb <= |ps| && ToksIn(ps, v0) && AllLits(ps[ka..kb]) && Extends(st, st1)
    requires token in st1.tokenToOriginal && st1.tokenToOriginal[token] == Render(ps[ka..kb])
    requires PassKeeps(e, st1, out, done + token, more, ps, kb, v0)
    ensures PassKeeps(e, st, out, done, [Tok(token)] + more, ps, ka, v0)
  {
    hide VaultInv, Render, Expand;
    ExtendsTransitive(st, st1, out.0);
    if out.1.Ok? {
      ReplaceRun(ps, ka, kb, v0, out.0.tokenToOriginal, token, more);
      assert done + token + Render(more) == done + (token + Render(more));
    }
  }

  /** One rule's pass, from piece `k` on: the output is a redaction of the same meaning. */
  lemma {:induction false} SpansKeepMeaning(
    e: Engine, i: nat, st0: VaultState, st: VaultState, spans: seq<Span>, done: Text,
    ps: seq<Piece>, k: nat)
    returns (qs: seq<Piece>)
    requires i < |e.rules| && ValidEngine(e) && VaultInv(e.rules, st0) && VaultInv(e.rules, st)
    requires Extends(st0, st) && ToksIn(ps, st0.tokenToOriginal)
    requires ValidSpans(spans, |Render(ps)|) && k <= |ps|
    requires spans != [] ==> Offset(ps, k) <= spans[0].0
    ensures Offset(ps, k) <= |Render(ps)|
    ensures PassKeeps(e, st, RedactSpans(e, i, st, st0.tokenToOriginal.Keys, Render(ps), spans,
                                         Offset(ps, k), done),
                      done, qs, ps, k, st0.tokenToOriginal)
    decreases |spans|
  {
    hide VaultInv, ValidEngine, Render, Expand, Mint, PassKeeps, Extends, Offset, Touches;
    var v0, s, last := st0.tokenToOriginal, Render(ps), Offset(ps, k);
    RestOfPieces(ps, k);
    if spans == [] {
      qs := ps[k..];
      NothingLeft(e, st0, st, done, ps, k);
    } else if Touches(v0.Keys, s, spans[0].0, spans[0].1) {
      qs := SpansKeepMeaning(e, i, st0, st, spans[1..], done, ps, k);
    } else {
      var (a, b) := spans[0];
      VaultTokensFit(e, st0);
      var ka, kb := Locate(ps, v0, a, b);
      if ka < k {
        OffsetStrict(ps, v0, ka, k);
        assert false;
      }
      RenderSlice(ps, ka, kb);
      RenderSlice(ps, k, ka);
      GrowsFrom(st0, st);
      if e.allowed(s[a..b]) {
        RenderSlice(ps, k, kb);
        assert done + s[last..a] + s[a..b] == done + s[last..b];
        var more := SpansKeepMeaning(e, i, st0, st, spans[1..], done + s[last..b], ps, kb);
        qs := ps[k..kb] + more;
        KeepGlue(e, st, RedactSpans(e, i, st, v0.Keys, s, spans, last, done), done, more, ps, k, kb, v0);
      } else {
        EngineAccepted(e);
        MintKeepsInv(e.rules, st, i, s[a..b]);
        var (st1, r) := Mint(e.rules[i], st, s[a..b]);
        ExtendsTransitive(st0, st, st1);
        if r.Err? {
          qs := [];
          PassFailed(e, st, st1, r, done, ps, k, v0);
        } else {
          var more := SpansKeepMeaning(e, i, st0, st1, spans[1..], done + s[last..a] + r.value, ps, kb);
          var out := RedactSpans(e, i, st, v0.Keys, s, spans, last, done);
          TokenGlue(e, st, st1, out, done + s[last..a], r.value, more, ps, ka, kb, v0);
          qs := ps[k..ka] + ([Tok(r.value)] + more);
          KeepGlue(e, st, out, done, [Tok(r.value)] + more, ps, k, ka, v0);
        }
      }
    }
  }

  lemma {:induction false} NothingLeft(e: Engine, st0: VaultState, st: VaultState, done: Text,
                                       ps: seq<Piece>, k: nat)
    requires VaultInv(e.rules, st) && Extends(st0, st) && ToksIn(ps, st0.tokenToOriginal) && k <= |ps|
    ensures PassKeeps(e, st, (st, Ok(done + Render(ps[k..]))), done, ps[k..], ps, k, st0.tokenToOriginal)
  {
    hide VaultInv;
    ExpandGrows(ps[k..], st0.tokenToOriginal, st.tokenToOriginal);
  }

  lemma {:induction false} PassFailed(e: Engine, st: VaultState, st': VaultState, r: Result<Text>, done: Text,
                                      ps: seq<Piece>, k: nat, v0: map<Text, Text>)
    requires VaultInv(e.rules, st') && Extends(st, st') && r.Err? && ToksIn(ps, v0) && k <= |ps|
    ensures PassKeeps(e, st, (st', r), done, [], ps, k, v0)
  {
  }

  lemma {:induction false} GrowsFrom(st: VaultState, st': VaultState)
    requires Extends(st, st')
    ensures Grows(st.tokenToOriginal, st'.tokenToOriginal)
  {
  }

  // ----- one pass replaces exactly the matches it should -----

  /** The matches the source must replace: touching no earlier token and not allow-listed. */
  ghost function Wanted(e: Engine, keys: set<Text>, s: Text, spans: seq<Span>): seq<Span>
    requires ValidSpans(spans, |s|)
  {
    if spans == [] then []
    else
      var (a, b) := spans[0];
      (if Touches(keys, s, a, b) || e.allowed(s[a..b]) then [] else [spans[0]])
      + Wanted(e, keys, s, spans[1..])
  }

  /** The parts of the input that the token pieces stand for. */
  function Cuts(qs: seq<Piece>, v: map<Text, Text>, at: nat): seq<Span>
    requires ToksIn(qs, v)
  {
    if qs == [] then []
    else (if qs[0].Tok? then [(at, at + |v[qs[0].t]|)] else [])
         + Cuts(qs[1..], v, at + |Meant(qs[0], v)|)
  }

  function Lits(s: Text): (ps: seq<Piece>)
    ensures AllLits(ps)
  {
    if s == [] then [] else [Lit(s[0])] + Lits(s[1..])
  }

  lemma {:induction false} LitInFront(b: byte, qs: seq<Piece>, v: map<Text, Text>, at: nat)
    requires ToksIn(qs, v)
    ensures ToksIn([Lit(b)] + qs, v)
    ensures Render([Lit(b)] + qs) == [b] + Render(qs)
    ensures Expand([Lit(b)] + qs, v) == [b] + Expand(qs, v)
    ensures Cuts([Lit(b)] + qs, v, at) == Cuts(qs, v, at + 1)
  {
    assert ([Lit(b)] + qs)[1..] == qs;
  }

  lemma {:induction false} LitsInFront(u: Text, qs: seq<Piece>, v: map<Text, Text>, at: nat)
    requires ToksIn(qs, v)
    ensures ToksIn(Lits(u) + qs, v)
    ensures Render(Lits(u) + qs) == u + Render(qs)
    ensures Expand(Lits(u) + qs, v) == u + Expand(qs, v)
    ensures Cuts(Lits(u) + qs, v, at) == Cuts(qs, v, at + |u|)
  {
    hide Render, Expand, Cuts;
    if u == [] {
      assert Lits(u) + qs == qs;
      assert u + Render(qs) == Render(qs) && u + Expand(qs, v) == Expand(qs, v);
    } else {
      var tail := Lits(u[1..]) + qs;
      LitsInFront(u[1..], qs, v, at + 1);
      LitInFront(u[0], tail, v, at);
      assert Lits(u) + qs == [Lit(u[0])] + tail;
      assert u == [u[0]] + u[1..];
      assert u + Render(qs) == [u[0]] + (u[1..] + Render(qs));
      assert u + Expand(qs, v) == [u[0]] + (u[1..] + Expand(qs, v));
    }
  }

  lemma {:induction false} TokInFront(token: Text, qs: seq<Piece>, v: map<Text, Text>, at: nat)
    requires ToksIn(qs, v) && token in v
    ensures ToksIn([Tok(token)] + qs, v)
    ensures Render([Tok(token)] + qs) == token + Render(qs)
    ensures Expand([Tok(token)] + qs, v) == v[token] + Expand(qs, v)
    ensures Cuts([Tok(token)] + qs, v, at) == [(at, at + |v[token]|)] + Cuts(qs, v, at + |v[token]|)
  {
    assert ([Tok(token)] + qs)[1..] == qs;
  }

  /** Every token piece is the one the vault assigned to its original under the rule's name. */
  ghost predicate Named(qs: seq<Piece>, st: VaultState, name: string)
    requires ToksIn(qs, st.tokenToOriginal)
  {
    forall x | 0 <= x < |qs| && qs[x].Tok? :: AssignedTo(st, name, st.tokenToOriginal[qs[x].t], qs[x].t)
  }

  predicate AssignedTo(st: VaultState, name: string, original: Text, t: Text) {
    (name, original) in st.valueToToken && st.valueToToken[(name, original)] == t
  }

  /** `out` is `s` from `from` on with exactly the spans `wanted` replaced, each by the token that the
      vault assigned to it under `name`. */
  ghost predicate ReplacesExactly(st: VaultState, name: string, out: Text, s: Text, from: nat, wanted: seq<Span>)
    requires from <= |s|
  {
    var v := st.tokenToOriginal;
    exists qs :: ToksIn(qs, v) && Named(qs, st, name) && Render(qs) == out && Expand(qs, v) == s[from..]
                 && Cuts(qs, v, from) == wanted
  }

  lemma {:induction false} KeepBytes(st: VaultState, name: string, out: Text, s: Text, from: nat, to: nat,
                                     wanted: seq<Span>)
    requires from <= to <= |s| && ReplacesExactly(st, name, out, s, to, wanted)
    ensures ReplacesExactly(st, name, s[from..to] + out, s, from, wanted)
  {
    hide Render, Expand, Cuts, AssignedTo;
    var v := st.tokenToOriginal;
    var qs :| ToksIn(qs, v) && Named(qs, st, name) && Render(qs) == out && Expand(qs, v) == s[to..]
              && Cuts(qs, v, to) == wanted;
    LitsInFront(s[from..to], qs, v, from);
    assert s[from..to] + s[to..] == s[from..];
    assert Named(Lits(s[from..to]) + qs, st, name);
  }

  lemma {:induction false} CutBytes(st: VaultState, name: string, out: Text, s: Text, a: nat, b: nat, token: Text,
                                    wanted: seq<Span>)
    requires a <= b <= |s| && token in st.tokenToOriginal && st.tokenToOriginal[token] == s[a..b]
    requires AssignedTo(st, name, s[a..b], token) && ReplacesExactly(st, name, out, s, b, wanted)
    ensures ReplacesExactly(st, name, token + out, s, a, [(a, b)] + wanted)
  {
    hide Render, Expand, Cuts, AssignedTo;
    var v := st.tokenToOriginal;
    var qs :| ToksIn(qs, v) && Named(qs, st, name) && Render(qs) == out && Expand(qs, v) == s[b..]
              && Cuts(qs, v, b) == wanted;
    TokInFront(token, qs, v, a);
    assert s[a..b] + s[b..] == s[a..];
    assert Named([Tok(token)] + qs, st, name);
  }

  ghost predicate PassCuts(e: Engine, name: string, st: VaultState, out: (VaultState, Result<Text>), done: Text,
                           rest: Text, s: Text, from: nat, wanted: seq<Span>)
    requires from <= |s|
  {
    && VaultInv(e.rules, out.0) && Extends(st, out.0)
    && (out.1.Ok? ==> out.1.value == done + rest
                      && ReplacesExactly(out.0, name, rest, s, from, wanted))
  }

  lemma {:induction false} KeepBytesGlue(e: Engine, name: string, st: VaultState, out: (VaultState, Result<Text>), done: Text,
                                         rest: Text, s: Text, from: nat, to: nat, wanted: seq<Span>)
    requires from <= to <= |s| && PassCuts(e, name, st, out, done + s[from..to], rest, s, to, wanted)
    ensures PassCuts(e, name, st, out, done, s[from..to] + rest, s, from, wanted)
  {
    hide VaultInv, ReplacesExactly;
    if out.1.Ok? {
      KeepBytes(out.0, name, rest, s, from, to, wanted);
      assert done + s[from..to] + rest == done + (s[from..to] + rest);
    }
  }

  lemma {:induction false} CutBytesGlue(e: Engine, name: string, st: VaultState, st1: VaultState,
                                        out: (VaultState, Result<Text>), done: Text, token: Text, rest: Text,
                                        s: Text, a: nat, b: nat, wanted: seq<Span>)
    requires a <= b <= |s| && Extends(st, st1)
    requires token in st1.tokenToOriginal && st1.tokenToOriginal[token] == s[a..b]
    requires AssignedTo(st1, name, s[a..b], token)
    requires PassCuts(e, name, st1, out, done + token, rest, s, b, wanted)
    ensures PassCuts(e, name, st, out, done, token + rest, s, a, [(a, b)] + wanted)
  {
    hide VaultInv, ReplacesExactly;
    ExtendsTransitive(st, st1, out.0);
    if out.1.Ok? {
      CutBytes(out.0, name, rest, s, a, b, token, wanted);
      assert done + token + rest == done + (token + rest);
    }
  }

  lemma {:induction false} SpansReplaceExactly(
    e: Engine, i: nat, st: VaultState, keys: set<Text>, s: Text, spans: seq<Span>, last: nat, done: Text)
    returns (rest: Text)
    requires i < |e.rules| && ValidEngine(e) && VaultInv(e.rules, st)
    requires ValidSpans(spans, |s|) && last <= |s| && (spans != [] ==> last <= spans[0].0)
    ensures PassCuts(e, e.rules[i].name, st, RedactSpans(e, i, st, keys, s, spans, last, done), done, rest, s, last,
                     Wanted(e, keys, s, spans))
    decreases |spans|
  {
    hide VaultInv, ValidEngine, Mint, Extends, Touches, PassCuts;
    var out, name := RedactSpans(e, i, st, keys, s, spans, last, done), e.rules[i].name;
    if spans == [] {
      rest := s[last..];
      NothingReplaced(e, name, st, s, last, done);
    } else if Touches(keys, s, spans[0].0, spans[0].1) {
      rest := SpansReplaceExactly(e, i, st, keys, s, spans[1..], last, done);
      assert Wanted(e, keys, s, spans) == Wanted(e, keys, s, spans[1..]);
    } else {
      var (a, b) := spans[0];
      var wanted := Wanted(e, keys, s, spans[1..]);
      if e.allowed(s[a..b]) {
        assert done + s[last..a] + s[a..b] == done + s[last..b];
        var more := SpansReplaceExactly(e, i, st, keys, s, spans[1..], b, done + s[last..b]);
        rest := s[last..b] + more;
        KeepBytesGlue(e, name, st, out, done, more, s, last, b, wanted);
        assert Wanted(e, keys, s, spans) == wanted;
      } else {
        EngineAccepted(e);
        MintKeepsInv(e.rules, st, i, s[a..b]);
        var (st1, r) := Mint(e.rules[i], st, s[a..b]);
        if r.Err? {
          rest := [];
          NothingCut(e, name, st, st1, r, done, s, last, Wanted(e, keys, s, spans));
        } else {
          var more := SpansReplaceExactly(e, i, st1, keys, s, spans[1..], b, done + s[last..a] + r.value);
          CutBytesGlue(e, name, st, st1, out, done + s[last..a], r.value, more, s, a, b, wanted);
          rest := s[last..a] + (r.value + more);
          KeepBytesGlue(e, name, st, out, done, r.value + more, s, last, a, [(a, b)] + wanted);
        }
      }
    }
  }

  lemma {:induction false} NothingCut(e: Engine, name: string, st: VaultState, st': VaultState, r: Result<Text>, done: Text,
                                      s: Text, from: nat, wanted: seq<Span>)
    requires VaultInv(e.rules, st') && Extends(st, st') && r.Err? && from <= |s|
    ensures PassCuts(e, name, st, (st', r), done, [], s, from, wanted)
  {
  }

  lemma {:induction false} NothingReplaced(e: Engine, name: string, st: VaultState, s: Text, from: nat, done: Text)
    requires from <= |s| && VaultInv(e.rules, st)
    ensures PassCuts(e, name, st, (st, Ok(done + s[from..])), done, s[from..], s, from, [])
  {
    hide VaultInv;
    var v := st.tokenToOriginal;
    LitsInFront(s[from..], [], v, from);
    var qs := Lits(s[from..]);
    assert qs + [] == qs;
    assert ToksIn(qs, v) && Render(qs) == s[from..] && Expand(qs, v) == s[from..] && Cuts(qs, v, from) == [];
  }

  lemma {:induction false} ExtendsItself(st: VaultState)
    ensures Extends(st, st)
  {
  }

  /** A successful pass of one rule replaces exactly the matches that touch no earlier token and
      are not allow-listed, each by the token assigned to it under the rule's name, and changes nothing
      else. */
  lemma {:induction false} RuleReplacesExactly(e: Engine, i: nat, st: VaultState, s: Text)
    requires i < |e.rules| && ValidEngine(e) && RulesOk(e.rules) && VaultInv(e.rules, st)
    requires RedactRule(e, i, st, s).1.Ok?
    ensures ValidSpans(e.rules[i].matches(s), |s|)
    ensures ReplacesExactly(RedactRule(e, i, st, s).0, e.rules[i].name, RedactRule(e, i, st, s).1.value, s, 0,
                            Wanted(e, st.tokenToOriginal.Keys, s, e.rules[i].matches(s)))
  {
    assert RuleOk(e.rules[i]);
    var rest := SpansReplaceExactly(e, i, st, st.tokenToOriginal.Keys, s, e.rules[i].matches(s), 0, []);
    assert [] + rest == rest;
  }

  // ----- every rule has its pass -----

  /** Rule `i` took the text from `s` to `s'`: exactly its matches that touch no earlier token and are
      not allow-listed were replaced, each by the token the new vault has for it under the rule's name. */
  ghost predicate Passed(e: Engine, i: nat, st: VaultState, s: Text, st': VaultState, s': Text)
    requires i < |e.rules| && RulesOk(e.rules)
  {
    assert RuleOk(e.rules[i]);
    && VaultInv(e.rules, st) && VaultInv(e.rules, st') && Extends(st, st')
    && ReplacesExactly(st', e.rules[i].name, s', s, 0, Wanted(e, st.tokenToOriginal.Keys, s, e.rules[i].matches(s)))
  }

  /** The rules from `from` on, one after the other, each on the text the one before it left. */
  ghost predicate Passes(e: Engine, from: nat, states: seq<VaultState>, texts: seq<Text>)
    requires from <= |e.rules| && RulesOk(e.rules)
  {
    && |texts| == |states| == |e.rules| - from + 1
    && forall j | 0 <= j < |e.rules| - from :: Passed(e, from + j, states[j], texts[j], states[j + 1], texts[j + 1])
  }

  /** Every rule of the engine, in order, had its pass between the text and the output. */
  ghost predicate EveryRulePassed(e: Engine, st: VaultState, text: Text, st': VaultState, out: Text)
    requires RulesOk(e.rules)
  {
    exists states, texts ::
      Passes(e, 0, states, texts) && states[0] == st && texts[0] == text
      && states[|e.rules|] == st' && texts[|e.rules|] == out
  }

  lemma {:induction false} RulePasses(e: Engine, i: nat, st: VaultState, s: Text)
    requires i < |e.rules| && ValidEngine(e) && RulesOk(e.rules) && VaultInv(e.rules, st)
    requires RedactRule(e, i, st, s).1.Ok?
    ensures Passed(e, i, st, s, RedactRule(e, i, st, s).0, RedactRule(e, i, st, s).1.value)
  {
    hide VaultInv, ValidEngine, RedactRule, RulesOk, ReplacesExactly, Extends;
    RuleReplacesExactly(e, i, st, s);
    PlainRedactsItself(st.tokenToOriginal, s);
    RuleKeepsMeaning(e, i, st, s, s);
  }

  lemma {:induction false} RulesPass(e: Engine, i: nat, st: VaultState, s: Text, original: Text)
    returns (states: seq<VaultState>, texts: seq<Text>)
    requires i <= |e.rules| && ValidEngine(e) && RulesOk(e.rules) && VaultInv(e.rules, st)
    requires RedactRules(e, i, st, s).1.Ok? && Redacts(st.tokenToOriginal, s, original)
    ensures |states| == |texts| && forall j | 0 <= j < |texts| :: Redacts(states[j].tokenToOriginal, texts[j], original)
    ensures Passes(e, i, states, texts) && states[0] == st && texts[0] == s
    ensures states[|e.rules| - i] == RedactRules(e, i, st, s).0 && texts[|e.rules| - i] == RedactRules(e, i, st, s).1.value
    decreases |e.rules| - i
  {
    hide VaultInv, ValidEngine, RedactRule, RulesOk, Passed, Redacts;
    if i == |e.rules| {
      states, texts := [st], [s];
    } else {
      RulePasses(e, i, st, s);
      var (st1, r) := RedactRule(e, i, st, s);
      PassedKeepsInv(e, i, st, s, st1, r.value);
      RuleKeepsMeaning(e, i, st, s, original);
      var states1, texts1 := RulesPass(e, i + 1, st1, r.value, original);
      states, texts := [st] + states1, [s] + texts1;
      forall j | 0 <= j < |e.rules| - i ensures Passed(e, i + j, states[j], texts[j], states[j + 1], texts[j + 1]) {
        if j > 0 {
          assert Passed(e, i + 1 + (j - 1), states1[j - 1], texts1[j - 1], states1[j], texts1[j]);
        }
      }
    }
  }

  lemma {:induction false} PassedKeepsInv(e: Engine, i: nat, st: VaultState, s: Text, st': VaultState, s': Text)
    requires i < |e.rules| && RulesOk(e.rules) && Passed(e, i, st, s, st', s')
    ensures VaultInv(e.rules, st') && Extends(st, st')
  {
  }

  /** For every successful redaction, between the text and the output every rule had its pass. */
  lemma {:induction false} NoRuleIsSkipped(e: Engine, st: VaultState, text: Text)
    requires ValidEngine(e) && RulesOk(e.rules) && VaultInv(e.rules, st) && RedactRules(e, 0, st, text).1.Ok?
    ensures EveryRulePassed(e, st, text, RedactRules(e, 0, st, text).0, RedactRules(e, 0, st, text).1.value)
  {
    hide VaultInv, ValidEngine, RedactRules, RulesOk, Passes;
    PlainRedactsItself(st.tokenToOriginal, text);
    var states, texts := RulesPass(e, 0, st, text, text);
  }

  // ----- when a redaction is refused, and when a pass changes the text -----

  lemma {:induction false} SpansRefused(e: Engine, i: nat, st: VaultState, keys: set<Text>, s: Text, spans: seq<Span>,
                                        last: nat, done: Text)
    requires i < |e.rules| && ValidEngine(e) && VaultInv(e.rules, st)
    requires ValidSpans(spans, |s|) && last <= |s| && (spans != [] ==> last <= spans[0].0)
    ensures var (st', r) := RedactSpans(e, i, st, keys, s, spans, last, done);
            r.Err? ==> |st'.tokenToOriginal| == MAX_SESSION_TOKENS
    decreases |spans|
  {
    hide VaultInv, ValidEngine, Mint, Touches;
    if spans != [] {
      var (a, b) := spans[0];
      if Touches(keys, s, a, b) {
        SpansRefused(e, i, st, keys, s, spans[1..], last, done);
      } else if e.allowed(s[a..b]) {
        SpansRefused(e, i, st, keys, s, spans[1..], b, done + s[last..a] + s[a..b]);
      } else {
        EngineAccepted(e);
        MintKeepsInv(e.rules, st, i, s[a..b]);
        var (st1, r) := Mint(e.rules[i], st, s[a..b]);
        if r.Ok? {
          SpansRefused(e, i, st1, keys, s, spans[1..], b, done + s[last..a] + r.value);
        }
      }
    }
  }

  /** A redaction is refused only when the session's vault is full. */
  lemma {:induction false} OnlyTheCapRefuses(e: Engine, i: nat, st: VaultState, s: Text)
    requires i <= |e.rules| && ValidEngine(e) && RulesOk(e.rules) && VaultInv(e.rules, st)
    ensures RedactRules(e, i, st, s).1.Err? ==> |RedactRules(e, i, st, s).0.tokenToOriginal| == MAX_SESSION_TOKENS
    decreases |e.rules| - i
  {
    hide VaultInv, ValidEngine, RedactSpans;
    if i < |e.rules| {
      assert RuleOk(e.rules[i]);
      SpansRefused(e, i, st, st.tokenToOriginal.Keys, s, e.rules[i].matches(s), 0, []);
      PlainRedactsItself(st.tokenToOriginal, s);
      RuleKeepsMeaning(e, i, st, s, s);
      var (st1, r) := RedactRule(e, i, st, s);
      if r.Ok? {
        OnlyTheCapRefuses(e, i + 1, st1, r.value);
      }
    }
  }

  lemma {:induction false} NoCutsNoChange(qs: seq<Piece>, v: map<Text, Text>, at: nat)
    requires ToksIn(qs, v)
    ensures Cuts(qs, v, at) == [] ==> Render(qs) == Expand(qs, v)
  {
    if qs == [] {
      RenderNothing();
    } else {
      hide Render, Expand, Cuts;
      var rest := qs[1..];
      assert qs == [qs[0]] + rest;
      if qs[0].Lit? {
        LitInFront(qs[0].b, rest, v, at);
        NoCutsNoChange(rest, v, at + 1);
      } else {
        TokInFront(qs[0].t, rest, v, at);
      }
    }
  }

  /** The first replaced span: its token stands in the output where it stood in the text. */
  lemma {:induction false} FirstCut(qs: seq<Piece>, v: map<Text, Text>, at: nat) returns (t: Text, n: nat)
    requires ToksIn(qs, v) && Cuts(qs, v, at) != []
    ensures t in v && Cuts(qs, v, at)[0].0 == at + n && Occurs(t, Render(qs), n) && n <= |Expand(qs, v)|
  {
    if qs[0].Tok? {
      t, n := qs[0].t, 0;
      assert Render(qs)[..|t|] == t;
    } else {
      var m;
      t, m := FirstCut(qs[1..], v, at + 1);
      n := m + 1;
      assert Render(qs)[1..] == Render(qs[1..]);
      OccursShift(t, Render(qs), 1, m);
    }
  }

  lemma {:induction false} WantedTouchNothing(e: Engine, keys: set<Text>, s: Text, spans: seq<Span>, x: nat)
    requires ValidSpans(spans, |s|) && x < |Wanted(e, keys, s, spans)|
    ensures var (a, b) := Wanted(e, keys, s, spans)[x];
            a < b <= |s| && !Touches(keys, s, a, b) && !e.allowed(s[a..b])
  {
    hide Touches;
    var first := if Touches(keys, s, spans[0].0, spans[0].1) || e.allowed(s[spans[0].0..spans[0].1]) then [] else [spans[0]];
    if x >= |first| {
      WantedTouchNothing(e, keys, s, spans[1..], x - |first|);
    }
  }

  /** Whether a pass changes the text: it does if and only if the rule has a match to replace, as long as
      the text does not already spell a token minted in that very pass. */
  lemma {:induction false} PassChangesText(e: Engine, i: nat, st: VaultState, s: Text, st': VaultState, s': Text)
    requires i < |e.rules| && ValidEngine(e) && RulesOk(e.rules) && Passed(e, i, st, s, st', s')
    requires forall t, p: nat | t in st'.tokenToOriginal && t !in st.tokenToOriginal :: !Occurs(t, s, p)
    ensures ValidSpans(e.rules[i].matches(s), |s|)
    ensures s' == s <==> Wanted(e, st.tokenToOriginal.Keys, s, e.rules[i].matches(s)) == []
  {
    hide VaultInv, ValidEngine, Render, Expand, Cuts, Wanted, Occurs;
    assert RuleOk(e.rules[i]);
    var keys, v, wanted := st.tokenToOriginal.Keys, st'.tokenToOriginal, Wanted(e, st.tokenToOriginal.Keys, s, e.rules[i].matches(s));
    var qs :| ToksIn(qs, v) && Named(qs, st', e.rules[i].name) && Render(qs) == s' && Expand(qs, v) == s[0..]
              && Cuts(qs, v, 0) == wanted;
    assert s[0..] == s;
    NoCutsNoChange(qs, v, 0);
    if wanted != [] {
      var t, n := FirstCut(qs, v, 0);
      WantedTouchNothing(e, keys, s, e.rules[i].matches(s), 0);
      VaultTokensFit(e, st');
      CutIsNew(keys, s, wanted[0].0, wanted[0].1, t, v.Keys);
    }
  }

  /** A token that stood in the text where a wanted match begins would touch it. */
  lemma {:induction false} CutIsNew(keys: set<Text>, s: Text, a: nat, b: nat, t: Text, all: set<Text>)
    requires a < b && !Touches(keys, s, a, b) && AllShaped(all) && t in all
    ensures Occurs(t, s, a) ==> t !in keys
  {
    assert Shaped(t);
  }

  // ----- whole texts, whole sessions -----

  lemma {:induction false} RuleKeepsMeaning(e: Engine, i: nat, st: VaultState, s: Text, original: Text)
    requires i < |e.rules| && ValidEngine(e) && RulesOk(e.rules) && VaultInv(e.rules, st)
    requires Redacts(st.tokenToOriginal, s, original)
    ensures var (st', r) := RedactRule(e, i, st, s);
            && VaultInv(e.rules, st') && Extends(st, st')
            && (r.Ok? ==> Redacts(st'.tokenToOriginal, r.value, original))
  {
    hide VaultInv, ValidEngine, Render, Expand;
    assert RuleOk(e.rules[i]);
    var v := st.tokenToOriginal;
    var ps :| ToksIn(ps, v) && Render(ps) == s && Expand(ps, v) == original;
    assert ps[..0] == [] && ps[0..] == ps;
    RenderNothing();
    var qs := SpansKeepMeaning(e, i, st, st, e.rules[i].matches(s), [], ps, 0);
    assert [] + Render(qs) == Render(qs);
  }

  lemma {:induction false} RenderNothing()
    ensures Render([]) == []
  {
  }

  lemma {:induction false} RulesKeepMeaning(e: Engine, i: nat, st: VaultState, s: Text, original: Text)
    requires i <= |e.rules| && ValidEngine(e) && RulesOk(e.rules) && VaultInv(e.rules, st)
    requires Redacts(st.tokenToOriginal, s, original)
    ensures var (st', r) := RedactRules(e, i, st, s);
            && VaultInv(e.rules, st') && Extends(st, st')
            && (r.Ok? ==> Redacts(st'.tokenToOriginal, r.value, original))
    decreases |e.rules| - i
  {
    hide VaultInv, ValidEngine, Redacts, RedactRule, RulesOk;
    if i < |e.rules| {
      RuleKeepsMeaning(e, i, st, s, original);
      var (st1, r) := RedactRule(e, i, st, s);
      if r.Ok? {
        RulesKeepMeaning(e, i + 1, st1, r.value, original);
        ExtendsTransitive(st, st1, RedactRules(e, i + 1, st1, r.value).0);
      }
    }
  }

  lemma {:induction false} PlainRedactsItself(v: map<Text, Text>, text: Text)
    ensures Redacts(v, text, text)
  {
    LitsInFront(text, [], v, 0);
    assert Lits(text) + [] == Lits(text);
    assert Render(Lits(text)) == text && Expand(Lits(text), v) == text;
  }

  /** A text means what restoring it gives: its vault tokens stand for their originals. */
  lemma {:induction false} TextMeansItsRestore(v: map<Text, Text>, s: Text)
    requires AllShaped(v.Keys)
    ensures Redacts(v, s, Restore(v, s))
    decreases |s|
  {
    hide Render, Expand, Hit, Restore, Cuts;
    if s == [] {
      PlainRedactsItself(v, s);
      RestoreNothing(v, s);
    } else if Hit(v.Keys, s, 0) {
      var t := HitKey(v.Keys, s, 0);
      HitIsPrefix(v, s, t);
      TextMeansItsRestore(v, s[|t|..]);
      var qs :| ToksIn(qs, v) && Render(qs) == s[|t|..] && Expand(qs, v) == Restore(v, s[|t|..]);
      TokInFront(t, qs, v, 0);
      RestoreTokenFirst(v, t, s);
      assert s == t + s[|t|..];
      assert Render([Tok(t)] + qs) == s;
    } else {
      TextMeansItsRestore(v, s[1..]);
      var qs :| ToksIn(qs, v) && Render(qs) == s[1..] && Expand(qs, v) == Restore(v, s[1..]);
      LitInFront(s[0], qs, v, 0);
      RestoreLiteralFirst(v, s);
      assert s == [s[0]] + s[1..];
      assert Render([Lit(s[0])] + qs) == s;
    }
  }

  lemma {:induction false} HitIsPrefix(v: map<Text, Text>, s: Text, t: Text)
    requires AllShaped(v.Keys) && t in v && Occurs(t, s, 0)
    ensures t <= s && t != []
  {
    assert Shaped(t);
  }

  /** Redact then restore, exactly: any rules, any allow-list, any session state before, any larger
      vault after.  Restoring the redacted text gives what restoring the text itself with the vault
      before the call would have given, so the text comes back if and only if that restore leaves it
      alone; provided that restore spells no token of the later vault. */
  lemma {:induction false} RestoreAfterRedact(e: Engine, st: VaultState, text: Text, later: VaultState)
    requires ValidEngine(e) && RulesOk(e.rules) && VaultInv(e.rules, st) && VaultInv(e.rules, later)
    requires RedactRules(e, 0, st, text).1.Ok? && Extends(RedactRules(e, 0, st, text).0, later)
    ensures AllShaped(st.tokenToOriginal.Keys) && AllShaped(later.tokenToOriginal.Keys)
    ensures NoHits(later.tokenToOriginal.Keys, Restore(st.tokenToOriginal, text)) ==>
              var back := Restore(later.tokenToOriginal, RedactRules(e, 0, st, text).1.value);
              && back == Restore(st.tokenToOriginal, text)
              && (back == text <==> Restore(st.tokenToOriginal, text) == text)
  {
    hide VaultInv, ValidEngine, RedactRules, Restore, RulesOk, NoHits;
    VaultTokensFit(e, st);
    VaultTokensFit(e, later);
    var meaning := Restore(st.tokenToOriginal, text);
    TextMeansItsRestore(st.tokenToOriginal, text);
    RulesKeepMeaning(e, 0, st, text, meaning);
    var (st', r) := RedactRules(e, 0, st, text);
    var ps :| ToksIn(ps, st'.tokenToOriginal) && Render(ps) == r.value
              && Expand(ps, st'.tokenToOriginal) == meaning;
    ExpandGrows(ps, st'.tokenToOriginal, later.tokenToOriginal);
    if NoHits(later.tokenToOriginal.Keys, meaning) {
      RestoreRender(later.tokenToOriginal, ps);
    }
  }

  lemma {:induction false} NoLaterHits(v: map<Text, Text>, v': map<Text, Text>, s: Text)
    requires AllShaped(v.Keys) && v.Keys <= v'.Keys && NoHits(v'.Keys, s)
    ensures Restore(v, s) == s
  {
    hide Restore;
    forall i: nat | i < |s| ensures !Hit(v.Keys, s, i) {
      assert !Hit(v'.Keys, s, i);
    }
    RestoreNothing(v, s);
  }

  /** In particular the round trip is the identity on every text without a literal token of the
      later vault. */
  lemma {:induction false} RedactThenRestore(e: Engine, st: VaultState, text: Text, later: VaultState)
    requires ValidEngine(e) && RulesOk(e.rules) && VaultInv(e.rules, st) && VaultInv(e.rules, later)
    requires RedactRules(e, 0, st, text).1.Ok? && Extends(RedactRules(e, 0, st, text).0, later)
    requires NoHits(later.tokenToOriginal.Keys, text)
    ensures AllShaped(later.tokenToOriginal.Keys)
    ensures Restore(later.tokenToOriginal, RedactRules(e, 0, st, text).1.value) == text
  {
    hide VaultInv, ValidEngine, RedactRules, Restore, RulesOk, NoHits;
    RestoreAfterRedact(e, st, text, later);
    PlainRedactsItself(st.tokenToOriginal, text);
    RulesKeepMeaning(e, 0, st, text, text);
    ExtendsTransitive(st, RedactRules(e, 0, st, text).0, later);
    NoLaterHits(st.tokenToOriginal, later.tokenToOriginal, text);
  }

  /** The text spells no token any rule of the engine could mint in a session: a condition on the
      engine and the text alone. */
  predicate SpellsNoToken(e: Engine, s: Text) {
    forall i, n, p | 0 <= i < |e.rules| && 1 <= n <= MAX_SESSION_TOKENS && 0 <= p < |s| ::
      !Occurs(TokenText(e.rules[i], n), s, p)
  }

  /** So it holds no token of any vault the engine's sessions can reach. */
  lemma {:induction false} SpellsNoVaultToken(e: Engine, st: VaultState, s: Text)
    requires VaultInv(e.rules, st) && SpellsNoToken(e, s)
    ensures NoHits(st.tokenToOriginal.Keys, s)
  {
    hide TokenText, Occurs, MapsAgree;
    forall p: nat | p < |s| ensures !Hit(st.tokenToOriginal.Keys, s, p) {
      forall t | t in st.tokenToOriginal.Keys ensures !Occurs(t, s, p) {
        assert Minted(e.rules, st, t);
        var i: nat, n: nat :| MintedAs(e.rules, st, t, i, n);
        assert n <= MAX_SESSION_TOKENS;
      }
    }
  }

  /** The exact law under a condition a caller can check before the call: what restoring the text with
      the present vault gives spells no token the engine could mint.  Then, with any later vault, that
      is what comes back, and the text comes back if and only if that restore leaves it alone. */
  lemma {:induction false} RestoreAsBefore(e: Engine, st: VaultState, text: Text, later: VaultState)
    requires ValidEngine(e) && RulesOk(e.rules) && VaultInv(e.rules, st) && VaultInv(e.rules, later)
    requires RedactRules(e, 0, st, text).1.Ok? && Extends(RedactRules(e, 0, st, text).0, later)
    ensures AllShaped(st.tokenToOriginal.Keys) && AllShaped(later.tokenToOriginal.Keys)
    ensures SpellsNoToken(e, Restore(st.tokenToOriginal, text)) ==>
              var back := Restore(later.tokenToOriginal, RedactRules(e, 0, st, text).1.value);
              && back == Restore(st.tokenToOriginal, text)
              && (back == text <==> Restore(st.tokenToOriginal, text) == text)
  {
    hide VaultInv, ValidEngine, RedactRules, Restore, RulesOk, NoHits, SpellsNoToken, Extends, AllShaped;
    RestoreAfterRedact(e, st, text, later);
    if SpellsNoToken(e, Restore(st.tokenToOriginal, text)) {
      SpellsNoVaultToken(e, later, Restore(st.tokenToOriginal, text));
    }
  }

  /** In particular a text that spells no token the engine could mint always comes back. */
  lemma {:induction false} PlainTextComesBack(e: Engine, st: VaultState, text: Text, later: VaultState)
    requires ValidEngine(e) && RulesOk(e.rules) && VaultInv(e.rules, st) && VaultInv(e.rules, later)
    requires RedactRules(e, 0, st, text).1.Ok? && Extends(RedactRules(e, 0, st, text).0, later)
    requires SpellsNoToken(e, text)
    ensures AllShaped(later.tokenToOriginal.Keys)
    ensures Restore(later.tokenToOriginal, RedactRules(e, 0, st, text).1.value) == text
  {
    hide VaultInv, ValidEngine, RedactRules, Restore, RulesOk, NoHits, SpellsNoToken, Extends, AllShaped;
    SpellsNoVaultToken(e, later, text);
    RedactThenRestore(e, st, text, later);
  }

  /** A token seen in a redacted text whose meaning spells none is one of its token pieces. */
  lemma {:induction false} SeenTokenIsAPiece(v: map<Text, Text>, v': map<Text, Text>, ps: seq<Piece>, k: Text, p: nat)
    requires AllShaped(v'.Keys) && ToksIn(ps, v) && (forall t | t in v :: t in v' && v'[t] == v[t])
    requires NoHits(v'.Keys, Expand(ps, v)) && k in v' && Occurs(k, Render(ps), p)
    ensures k in v
    decreases |ps|
  {
    hide Hit, Occurs, AllShaped;
    ExpandGrows(ps, v, v');
    if ps == [] {
      NothingOccurs(k, p, v'.Keys);
    } else {
      var rest, out := ps[1..], Render(ps);
      SuffixHasNoHits(v'.Keys, Meant(ps[0], v), Expand(rest, v));
      ExpandGrows(rest, v, v');
      var n := |Shown(ps[0])|;
      assert out[n..] == Render(rest);
      if p >= n {
        OccursShift(k, out, n, p - n);
        SeenTokenIsAPiece(v, v', rest, k, p - n);
      } else if ps[0].Tok? {
        PieceIsThere(ps);
        SameToken(v'.Keys, k, ps[0].t, out, p);
      } else {
        NotAtALiteral(v', ps, k);
      }
    }
  }

  lemma {:induction false} NothingOccurs(k: Text, p: nat, keys: set<Text>)
    requires AllShaped(keys) && k in keys
    ensures !Occurs(k, [], p)
  {
    assert Shaped(k);
  }

  lemma {:induction false} PieceIsThere(ps: seq<Piece>)
    requires ps != [] && ps[0].Tok?
    ensures Occurs(ps[0].t, Render(ps), 0)
  {
  }

  lemma {:induction false} SameToken(keys: set<Text>, k: Text, t: Text, s: Text, p: nat)
    requires AllShaped(keys) && k in keys && t in keys && Occurs(k, s, p) && Occurs(t, s, 0) && p < |t|
    ensures k == t
  {
    hide Occurs;
    assert Shaped(k) && Shaped(t);
    NoOverlap(t, k, s, 0, p);
  }

  lemma {:induction false} NotAtALiteral(v: map<Text, Text>, ps: seq<Piece>, k: Text)
    requires AllShaped(v.Keys) && ToksIn(ps, v) && ps != [] && ps[0].Lit? && NoHits(v.Keys, Expand(ps, v)) && k in v
    ensures !Occurs(k, Render(ps), 0)
  {
    hide Occurs, Render, AllShaped;
    if Occurs(k, Render(ps), 0) {
      assert Hit(v.Keys, Render(ps), 0);
      LiteralTokenWasThere(v, ps);
      assert false;
    }
  }

  /** No match is forwarded: if the text spells no token the engine could mint, then each rule's pass
      changes the text it finds exactly when that rule has a match there that touches no earlier token
      and is not allow-listed. */
  lemma {:induction false} NoMatchIsForwarded(e: Engine, st: VaultState, text: Text)
    requires ValidEngine(e) && RulesOk(e.rules) && VaultInv(e.rules, st) && RedactRules(e, 0, st, text).1.Ok?
    requires SpellsNoToken(e, text)
    ensures exists states, texts ::
              && Passes(e, 0, states, texts) && states[0] == st && texts[0] == text
              && texts[|e.rules|] == RedactRules(e, 0, st, text).1.value
              && forall j | 0 <= j < |e.rules| :: ChangesIff(e, j, states[j], texts[j], texts[j + 1])
  {
    hide VaultInv, ValidEngine, RedactRules, RulesOk, Passed, SpellsNoToken, ChangesIff, Redacts;
    PlainRedactsItself(st.tokenToOriginal, text);
    var states, texts := RulesPass(e, 0, st, text, text);
    forall j | 0 <= j < |e.rules| ensures ChangesIff(e, j, states[j], texts[j], texts[j + 1]) {
      assert Passed(e, 0 + j, states[j], texts[j], states[j + 1], texts[j + 1]);
      PassChangesIff(e, j, states[j], texts[j], states[j + 1], texts[j + 1], text);
    }
  }

  ghost predicate ChangesIff(e: Engine, i: nat, st: VaultState, s: Text, s': Text)
    requires i < |e.rules| && RulesOk(e.rules)
  {
    assert RuleOk(e.rules[i]);
    s' == s <==> Wanted(e, st.tokenToOriginal.Keys, s, e.rules[i].matches(s)) == []
  }

  lemma {:induction false} PassChangesIff(e: Engine, i: nat, st: VaultState, s: Text, st': VaultState, s': Text, text: Text)
    requires i < |e.rules| && ValidEngine(e) && RulesOk(e.rules) && Passed(e, i, st, s, st', s')
    requires Redacts(st.tokenToOriginal, s, text) && SpellsNoToken(e, text)
    ensures ChangesIff(e, i, st, s, s')
  {
    hide VaultInv, ValidEngine, RulesOk, SpellsNoToken, Render, Expand, Occurs, AllShaped, NoHits, Passed, Wanted;
    PassedKeepsInv(e, i, st, s, st', s');
    SpellsNoVaultToken(e, st', text);
    VaultTokensFit(e, st');
    var v, v' := st.tokenToOriginal, st'.tokenToOriginal;
    var ps :| ToksIn(ps, v) && Render(ps) == s && Expand(ps, v) == text;
    forall t, p: nat | t in v' && t !in v ensures !Occurs(t, s, p) {
      if Occurs(t, s, p) {
        SeenTokenIsAPiece(v, v', ps, t, p);
        assert false;
      }
    }
    PassChangesText(e, i, st, s, st', s');
  }

  /** Any sequence of texts in one session; `None` once a redaction has been refused. */
  ghost function RedactAll(e: Engine, st: VaultState, texts: seq<Text>): (VaultState, Option<seq<Text>>)
    requires RulesOk(e.rules)
    decreases |texts|
  {
    if texts == [] then (st, Some([]))
    else
      var (st1, r) := RedactRules(e, 0, st, texts[0]);
      if r.Err? then (st1, None)
      else
        var (st2, more) := RedactAll(e, st1, texts[1..]);
        (st2, if more.Some? then Some([r.value] + more.value) else None)
  }

  /** The session's state when text `x` is about to be redacted. */
  ghost function StateBefore(e: Engine, st: VaultState, texts: seq<Text>, x: nat): VaultState
    requires RulesOk(e.rules) && x <= |texts|
    decreases x
  {
    if x == 0 then st else StateBefore(e, RedactRules(e, 0, st, texts[0]).0, texts[1..], x - 1)
  }

  /** What a session promises of text `x`: the final vault gives back what the vault before that text
      would have made of it, unless that spells a token of the final vault. */
  ghost predicate GivenBack(e: Engine, st: VaultState, texts: seq<Text>, x: nat, final: VaultState, out: Text)
    requires RulesOk(e.rules) && x < |texts| && AllShaped(final.tokenToOriginal.Keys)
  {
    var before := StateBefore(e, st, texts, x);
    && VaultInv(e.rules, before) && AllShaped(before.tokenToOriginal.Keys) && Extends(before, final)
    && var meant, back := Restore(before.tokenToOriginal, texts[x]), Restore(final.tokenToOriginal, out);
       NoHits(final.tokenToOriginal.Keys, meant) ==> back == meant && (back == texts[x] <==> meant == texts[x])
  }

  /** The exact session law: every text of a session is given back by the session's final vault as
      the vault before it would have restored it. */
  lemma {:induction false} SessionRestores(e: Engine, st: VaultState, texts: seq<Text>)
    requires ValidEngine(e) && RulesOk(e.rules) && VaultInv(e.rules, st)
    ensures var (final, outs) := RedactAll(e, st, texts);
            && VaultInv(e.rules, final) && Extends(st, final) && AllShaped(final.tokenToOriginal.Keys)
            && (outs.Some? ==>
                  && |outs.value| == |texts|
                  && forall x | 0 <= x < |texts| :: GivenBack(e, st, texts, x, final, outs.value[x]))
    decreases |texts|
  {
    hide VaultInv, ValidEngine, RedactRules, RulesOk, GivenBack, Extends, AllShaped;
    if texts == [] {
      VaultTokensFit(e, st);
      ExtendsItself(st);
    } else {
      PlainRedactsItself(st.tokenToOriginal, texts[0]);
      RulesKeepMeaning(e, 0, st, texts[0], texts[0]);
      var (st1, r) := RedactRules(e, 0, st, texts[0]);
      if r.Err? {
        VaultTokensFit(e, st1);
      } else {
        SessionRestores(e, st1, texts[1..]);
        var (final, more) := RedactAll(e, st1, texts[1..]);
        ExtendsTransitive(st, st1, final);
        if more.Some? {
          FirstGivenBack(e, st, texts, final);
          var outs := [r.value] + more.value;
          forall x | 0 <= x < |texts| ensures GivenBack(e, st, texts, x, final, outs[x]) {
            if x > 0 {
              assert GivenBack(e, st1, texts[1..], x - 1, final, more.value[x - 1]);
              LaterGivenBack(e, st, texts, x, final, outs[x]);
            }
          }
        }
      }
    }
  }

  lemma {:induction false} FirstGivenBack(e: Engine, st: VaultState, texts: seq<Text>, final: VaultState)
    requires ValidEngine(e) && RulesOk(e.rules) && VaultInv(e.rules, st) && VaultInv(e.rules, final) && texts != []
    requires RedactRules(e, 0, st, texts[0]).1.Ok? && Extends(RedactRules(e, 0, st, texts[0]).0, final)
    requires Extends(st, final)
    ensures AllShaped(final.tokenToOriginal.Keys)
    ensures GivenBack(e, st, texts, 0, final, RedactRules(e, 0, st, texts[0]).1.value)
  {
    hide VaultInv, ValidEngine, RedactRules, RulesOk, Restore, NoHits, Extends, AllShaped;
    RestoreAfterRedact(e, st, texts[0], final);
  }

  lemma {:induction false} LaterGivenBack(e: Engine, st: VaultState, texts: seq<Text>, x: nat, final: VaultState,
                                          out: Text)
    requires RulesOk(e.rules) && 0 < x < |texts| && AllShaped(final.tokenToOriginal.Keys)
    requires GivenBack(e, RedactRules(e, 0, st, texts[0]).0, texts[1..], x - 1, final, out)
    ensures GivenBack(e, st, texts, x, final, out)
  {
    hide VaultInv, RedactRules, RulesOk, Restore, NoHits, Extends, AllShaped;
  }

  /** In particular the final vault gives back every text that spells none of its tokens. */
  lemma {:induction false} SessionRoundTrip(e: Engine, st: VaultState, texts: seq<Text>)
    requires ValidEngine(e) && RulesOk(e.rules) && VaultInv(e.rules, st)
    ensures var (final, outs) := RedactAll(e, st, texts);
            && VaultInv(e.rules, final) && Extends(st, final) && AllShaped(final.tokenToOriginal.Keys)
            && (outs.Some? ==>
                  && |outs.value| == |texts|
                  && forall x | 0 <= x < |texts| && NoHits(final.tokenToOriginal.Keys, texts[x]) ::
                       Restore(final.tokenToOriginal, outs.value[x]) == texts[x])
  {
    hide VaultInv, ValidEngine, RedactAll, Restore, RulesOk, NoHits, AllShaped, GivenBack, Extends;
    SessionRestores(e, st, texts);
    var (final, outs) := RedactAll(e, st, texts);
    if outs.Some? {
      forall x | 0 <= x < |texts| && NoHits(final.tokenToOriginal.Keys, texts[x])
        ensures Restore(final.tokenToOriginal, outs.value[x]) == texts[x]
      {
        PlainGivenBack(e, st, texts, x, final, outs.value[x]);
      }
    }
  }

  lemma {:induction false} PlainGivenBack(e: Engine, st: VaultState, texts: seq<Text>, x: nat, final: VaultState,
                                          out: Text)
    requires RulesOk(e.rules) && x < |texts| && AllShaped(final.tokenToOriginal.Keys)
    requires GivenBack(e, st, texts, x, final, out) && NoHits(final.tokenToOriginal.Keys, texts[x])
    ensures Restore(final.tokenToOriginal, out) == texts[x]
  {
    hide VaultInv, RulesOk, Restore, NoHits, AllShaped, StateBefore;
    NoLaterHits(StateBefore(e, st, texts, x).tokenToOriginal, final.tokenToOriginal, texts[x]);
  }

  /** The exact session law, each text under a condition that can be checked before its own call. */
  lemma {:induction false} SessionRestoresAsBefore(e: Engine, st: VaultState, texts: seq<Text>, x: nat)
    requires ValidEngine(e) && RulesOk(e.rules) && VaultInv(e.rules, st)
    requires RedactAll(e, st, texts).1.Some? && x < |texts|
    ensures var (final, outs) := RedactAll(e, st, texts);
            var before := StateBefore(e, st, texts, x);
            && |outs.value| == |texts| && AllShaped(before.tokenToOriginal.Keys) && AllShaped(final.tokenToOriginal.Keys)
            && var meant, back := Restore(before.tokenToOriginal, texts[x]), Restore(final.tokenToOriginal, outs.value[x]);
               SpellsNoToken(e, meant) ==> back == meant && (back == texts[x] <==> meant == texts[x])
  {
    hide VaultInv, ValidEngine, RedactAll, Restore, RulesOk, NoHits, AllShaped, SpellsNoToken, Extends, StateBefore;
    SessionRestores(e, st, texts);
    var (final, outs) := RedactAll(e, st, texts);
    assert GivenBack(e, st, texts, x, final, outs.value[x]);
    var meant := Restore(StateBefore(e, st, texts, x).tokenToOriginal, texts[x]);
    if SpellsNoToken(e, meant) {
      SpellsNoVaultToken(e, final, meant);
    }
  }

  /** Under a condition on the engine and the texts alone: the final vault gives back every text of a
      session that spells no token the engine could mint. */
  lemma {:induction false} PlainSessionComesBack(e: Engine, st: VaultState, texts: seq<Text>)
    requires ValidEngine(e) && RulesOk(e.rules) && VaultInv(e.rules, st)
    ensures var (final, outs) := RedactAll(e, st, texts);
            && VaultInv(e.rules, final) && AllShaped(final.tokenToOriginal.Keys)
            && (outs.Some? ==>
                  && |outs.value| == |texts|
                  && forall x | 0 <= x < |texts| && SpellsNoToken(e, texts[x]) ::
                       Restore(final.tokenToOriginal, outs.value[x]) == texts[x])
  {
    hide VaultInv, ValidEngine, RedactAll, Restore, RulesOk, NoHits, AllShaped, SpellsNoToken, Extends;
    SessionRoundTrip(e, st, texts);
    var final := RedactAll(e, st, texts).0;
    forall x | 0 <= x < |texts| && SpellsNoToken(e, texts[x]) ensures NoHits(final.tokenToOriginal.Keys, texts[x]) {
      SpellsNoVaultToken(e, final, texts[x]);
    }
  }

  // ----- what comes back of any text at all -----

  /** Tokens replaced by their originals, and every run of literals between them restored on its
      own; `lits` is the run so far. */
  ghost function Mended(ps: seq<Piece>, v: map<Text, Text>, lits: Text): Text
    requires AllShaped(v.Keys) && ToksIn(ps, v)
    decreases |ps|
  {
    if ps == [] then Restore(v, lits)
    else if ps[0].Lit? then Mended(ps[1..], v, lits + [ps[0].b])
    else Restore(v, lits) + v[ps[0].t] + Mended(ps[1..], v, [])
  }

  /** A vault token in a text splits the work: each side is restored on its own. */
  lemma {:induction false} TokenSplits(v: map<Text, Text>, a: Text, t: Text, b: Text)
    requires AllShaped(v.Keys) && t in v
    ensures Restore(v, a + t + b) == Restore(v, a) + v[t] + Restore(v, b)
    decreases |a|
  {
    hide Restore, Hit, Occurs, AllShaped;
    var s := a + t + b;
    if a == [] {
      assert s == t + b && s[|t|..] == b;
      RestoreTokenFirst(v, t, s);
      RestoreNothing(v, []);
      assert [] + v[t] == v[t];
    } else if Hit(v.Keys, s, 0) {
      var k := HitKey(v.Keys, s, 0);
      HitBeforeToken(v, a, t, b, k);
      var rest := a[|k|..];
      TokenSplits(v, rest, t, b);
      CutFront(a, t, b, |k|);
      RestoreTokenFirst(v, k, s);
      RestoreTokenFirst(v, k, a);
      Reassociate(v[k], Restore(v, rest), v[t], Restore(v, b));
    } else {
      HitStays(v, a, t, b);
      TokenSplits(v, a[1..], t, b);
      CutFront(a, t, b, 1);
      assert s[0] == a[0];
      RestoreLiteralFirst(v, s);
      RestoreLiteralFirst(v, a);
      Reassociate([a[0]], Restore(v, a[1..]), v[t], Restore(v, b));
    }
  }

  lemma {:induction false} CutFront(a: Text, t: Text, b: Text, n: nat)
    requires n <= |a|
    ensures (a + t + b)[n..] == a[n..] + t + b
  {
  }

  lemma {:induction false} HitBeforeToken(v: map<Text, Text>, a: Text, t: Text, b: Text, k: Text)
    requires AllShaped(v.Keys) && t in v && a != [] && k in v && Occurs(k, a + t + b, 0)
    ensures k != [] && k <= a && k <= a + t + b
  {
    var s := a + t + b;
    HitIsPrefix(v, s, k);
    assert s[|a|..|a| + |t|] == t;
    assert Occurs(t, s, |a|);
    if |k| > |a| {
      NoOverlap(k, t, s, 0, |a|);
      assert false;
    }
    assert s[..|k|] == a[..|k|];
  }

  lemma {:induction false} HitStays(v: map<Text, Text>, a: Text, t: Text, b: Text)
    ensures Hit(v.Keys, a, 0) ==> Hit(v.Keys, a + t + b, 0)
  {
    if Hit(v.Keys, a, 0) {
      assert a + t + b == a + (t + b);
      OccursExtend(HitKey(v.Keys, a, 0), a, t + b, 0);
    }
  }

  lemma {:induction false} RestoreMends(v: map<Text, Text>, ps: seq<Piece>, lits: Text)
    requires AllShaped(v.Keys) && ToksIn(ps, v)
    ensures Restore(v, lits + Render(ps)) == Mended(ps, v, lits)
    decreases |ps|
  {
    hide Restore, AllShaped;
    if ps == [] {
      assert lits + [] == lits;
    } else if ps[0].Lit? {
      RestoreMends(v, ps[1..], lits + [ps[0].b]);
      Assoc(lits, [ps[0].b], Render(ps[1..]));
    } else {
      var rest := Render(ps[1..]);
      RestoreMends(v, ps[1..], []);
      assert [] + rest == rest;
      Assoc(lits, ps[0].t, rest);
      TokenSplits(v, lits, ps[0].t, rest);
    }
  }

  /** With no condition on the text: what comes back is the text with each run of bytes the rules
      left standing restored on its own, so only what the text itself spells can be altered. */
  lemma {:induction false} OnlyLiteralsAreAltered(e: Engine, st: VaultState, text: Text, later: VaultState)
    requires ValidEngine(e) && RulesOk(e.rules) && VaultInv(e.rules, st) && VaultInv(e.rules, later)
    requires RedactRules(e, 0, st, text).1.Ok? && Extends(RedactRules(e, 0, st, text).0, later)
    ensures AllShaped(later.tokenToOriginal.Keys)
    ensures var v, out := later.tokenToOriginal, RedactRules(e, 0, st, text).1.value;
            exists ps :: ToksIn(ps, v) && Render(ps) == out && Expand(ps, v) == text && Restore(v, out) == Mended(ps, v, [])
  {
    hide VaultInv, ValidEngine, RedactRules, Restore, RulesOk, Mended;
    PlainRedactsItself(st.tokenToOriginal, text);
    RulesKeepMeaning(e, 0, st, text, text);
    var (st', r) := RedactRules(e, 0, st, text);
    var ps :| ToksIn(ps, st'.tokenToOriginal) && Render(ps) == r.value
              && Expand(ps, st'.tokenToOriginal) == text;
    ExpandGrows(ps, st'.tokenToOriginal, later.tokenToOriginal);
    VaultTokensFit(e, later);
    RestoreMends(later.tokenToOriginal, ps, []);
    assert [] + Render(ps) == Render(ps);
  }

  // ----- the method -----

  predicate OverlapsAny(tokenSpans: seq<Span>, a: nat, b: nat) {
    exists x | 0 <= x < |tokenSpans| :: a < tokenSpans[x].1 && b > tokenSpans[x].0
  }

  lemma {:induction false} OverlapIsTouch(keys: set<Text>, s: Text, tokenSpans: seq<Span>, a: nat, b: nat)
    requires AllShaped(keys) && AllOccurrences(keys, s, tokenSpans) && a < b <= |s|
    ensures OverlapsAny(tokenSpans, a, b) <==> Touches(keys, s, a, b)
  {
    forall k, i: nat | k in keys && Occurs(k, s, i) && a < i + |k| && i < b
      ensures OverlapsAny(tokenSpans, a, b)
    {
      assert Hit(keys, s, i);
      var x :| 0 <= x < |tokenSpans| && tokenSpans[x].0 == i;
      var t := s[tokenSpans[x].0..tokenSpans[x].1];
      NoOverlap(t, k, s, i, i);
    }
    forall x | 0 <= x < |tokenSpans| && a < tokenSpans[x].1 && b > tokenSpans[x].0
      ensures Touches(keys, s, a, b)
    {
      assert Occurs(s[tokenSpans[x].0..tokenSpans[x].1], s, tokenSpans[x].0);
    }
  }

  /** The token spans a pass protects: what the automaton finds, nothing on an empty vault. */
  method TokenSpans(session: RedactionSession, s: Text) returns (tokenSpans: seq<Span>)
    requires session.Valid()
    modifies session`automaton
    ensures session.Valid() && session.State() == old(session.State())
    ensures AllShaped(session.tokenToOriginal.Keys)
    ensures AllOccurrences(session.tokenToOriginal.Keys, s, tokenSpans)
  {
    hide VaultInv, ValidEngine, Shaped;
    VaultTokensFit(session.engine, session.State());
    var patterns := session.Automaton();
    if patterns.None? {
      assert session.tokenToOriginal.Keys == {};
      return [];
    }
    assert forall p | 0 <= p < |patterns.value| :: patterns.value[p] in KeySet(patterns.value);
    tokenSpans := FindIter(patterns.value, s);
  }

  lemma {:induction false} SpanStep(e: Engine, i: nat, st: VaultState, keys: set<Text>, s: Text,
                                    spans: seq<Span>, x: nat, last: nat, done: Text)
    requires i < |e.rules| && ValidSpans(spans, |s|) && x < |spans| && last <= spans[x].0
    ensures ValidSpans(spans[x..], |s|) && ValidSpans(spans[x + 1..], |s|)
    ensures var (a, b) := spans[x];
            var all := RedactSpans(e, i, st, keys, s, spans[x..], last, done);
            && (Touches(keys, s, a, b) ==>
                  all == RedactSpans(e, i, st, keys, s, spans[x + 1..], last, done))
            && (!Touches(keys, s, a, b) && e.allowed(s[a..b]) ==>
                  all == RedactSpans(e, i, st, keys, s, spans[x + 1..], b, done + s[last..a] + s[a..b]))
            && (!Touches(keys, s, a, b) && !e.allowed(s[a..b]) ==>
                  var (st', r) := Mint(e.rules[i], st, s[a..b]);
                  all == if r.Err? then (st', r)
                         else RedactSpans(e, i, st', keys, s, spans[x + 1..], b, done + s[last..a] + r.value))
  {
    hide Touches, Mint;
    assert spans[x..][0] == spans[x] && spans[x..][1..] == spans[x + 1..];
  }

  /** One rule over one text: the inner loop of `redact_text`. */
  method RunRule(session: RedactionSession, i: nat, s: Text) returns (r: Result<Text>)
    requires session.Valid() && RulesOk(session.engine.rules) && i < |session.engine.rules|
    modifies session
    ensures session.Valid()
    ensures (session.State(), r) == RedactRule(session.engine, i, old(session.State()), s)
  {
    hide VaultInv, ValidEngine, Mint, Touches, OverlapsAny, AllOccurrences, RedactSpans, Extends;
    var e := session.engine;
    assert RuleOk(e.rules[i]);
    ghost var st0 := session.State();
    ghost var keys := session.tokenToOriginal.Keys;
    var tokenSpans := TokenSpans(session, s);
    var spans := e.rules[i].matches(s);
    var result: Text, last, x := [], 0, 0;
    assert spans[0..] == spans;
    while x < |spans|
      invariant 0 <= x <= |spans| && last <= |s| && (x < |spans| ==> last <= spans[x].0)
      invariant session.Valid() && session.engine == e
      invariant RedactSpans(e, i, session.State(), keys, s, spans[x..], last, result)
                == RedactSpans(e, i, st0, keys, s, spans, 0, [])
    {
      var (a, b) := spans[x];
      SpanStep(e, i, session.State(), keys, s, spans, x, last, result);
      OverlapIsTouch(keys, s, tokenSpans, a, b);
      if !OverlapsAny(tokenSpans, a, b) {
        if e.allowed(s[a..b]) {
          result := result + s[last..a] + s[a..b];
        } else {
          var token := session.TokenFor(i, s[a..b]);
          if token.Err? {
            return token;
          }
          result := result + s[last..a] + token.value;
        }
        last := b;
      }
      x := x + 1;
    }
    NoSpansLeft(e, i, session.State(), keys, s, last, result);
    return Ok(result + s[last..]);
  }

  lemma {:induction false} NoSpansLeft(e: Engine, i: nat, st: VaultState, keys: set<Text>, s: Text, last: nat,
                                       done: Text)
    requires i < |e.rules| && last <= |s|
    ensures RedactSpans(e, i, st, keys, s, [], last, done) == (st, Ok(done + s[last..]))
  {
  }

  /** `redact_text`. */
  method RedactText(session: RedactionSession, text: Text) returns (r: Result<Text>)
    requires session.Valid() && RulesOk(session.engine.rules)
    modifies session
    ensures session.Valid() && Extends(old(session.State()), session.State())
    ensures (session.State(), r) == RedactRules(session.engine, 0, old(session.State()), text)
    ensures r.Ok? ==> Redacts(session.tokenToOriginal, r.value, text)
    ensures r.Ok? ==> EveryRulePassed(session.engine, old(session.State()), text, session.State(), r.value)
    ensures r.Err? ==> |session.tokenToOriginal| == MAX_SESSION_TOKENS
  {
    hide VaultInv, ValidEngine, RedactRule, Redacts, Extends, RulesOk, EveryRulePassed;
    PlainRedactsItself(session.tokenToOriginal, text);
    RulesKeepMeaning(session.engine, 0, session.State(), text, text);
    if RedactRules(session.engine, 0, session.State(), text).1.Ok? {
      NoRuleIsSkipped(session.engine, session.State(), text);
    } else {
      OnlyTheCapRefuses(session.engine, 0, session.State(), text);
    }
    ghost var st0 := session.State();
    var e := session.engine;
    var out, i := text, 0;
    while i < |e.rules|
      invariant 0 <= i <= |e.rules| && session.Valid() && session.engine == e
      invariant RedactRules(e, i, session.State(), out) == RedactRules(e, 0, st0, text)
    {
      var r' := RunRule(session, i, out);
      if r'.Err? {
        return r';
      }
      out := r'.value;
      i := i + 1;
    }
    return Ok(out);
  }

  // ----- the limit of the round trip -----

  lemma {:induction false} TokenIsLeftAlone(e: Engine, i: nat, st: VaultState, t: Text, spans: seq<Span>)
    requires i < |e.rules| && ValidSpans(spans, |t|) && (t in st.tokenToOriginal || spans == [])
    ensures RedactSpans(e, i, st, st.tokenToOriginal.Keys, t, spans, 0, []) == (st, Ok(t))
    decreases |spans|
  {
    hide Mint;
    var keys := st.tokenToOriginal.Keys;
    if spans == [] {
      assert [] + t[0..] == t;
    } else {
      assert Occurs(t, t, 0) by { assert t[..|t|] == t; }
      assert Touches(keys, t, spans[0].0, spans[0].1);
      TokenIsLeftAlone(e, i, st, t, spans[1..]);
    }
  }

  /** Some rule finds something in `t`. */
  ghost predicate Matched(e: Engine, t: Text) { exists i | 0 <= i < |e.rules| :: e.rules[i].matches(t) != [] }

  lemma {:induction false} RulesLeaveTokenAlone(e: Engine, i: nat, st: VaultState, t: Text)
    requires i <= |e.rules| && RulesOk(e.rules) && (t in st.tokenToOriginal || !Matched(e, t))
    ensures RedactRules(e, i, st, t) == (st, Ok(t))
    decreases |e.rules| - i
  {
    hide RedactSpans;
    if i < |e.rules| {
      assert RuleOk(e.rules[i]);
      TokenIsLeftAlone(e, i, st, t, e.rules[i].matches(t));
      RulesLeaveTokenAlone(e, i + 1, st, t);
    }
  }

  /** The proviso is needed: a text that spells a token already in the vault, whatever the rules, or
      one minted only later, if no rule matches it, passes redaction untouched, so it comes back
      exactly when that token stands for itself. */
  lemma {:induction false} LiteralTokenBreaksRoundTrip(e: Engine, st: VaultState, t: Text, later: VaultState)
    requires ValidEngine(e) && RulesOk(e.rules) && VaultInv(e.rules, later) && Extends(st, later)
    requires t in later.tokenToOriginal && (t in st.tokenToOriginal || !Matched(e, t))
    ensures RedactRules(e, 0, st, t) == (st, Ok(t)) && AllShaped(later.tokenToOriginal.Keys)
    ensures Restore(later.tokenToOriginal, t) == t <==> later.tokenToOriginal[t] == t
  {
    hide Restore, RedactRules, VaultInv, ValidEngine, RulesOk, AllShaped, Matched;
    RulesLeaveTokenAlone(e, 0, st, t);
    VaultTokensFit(e, later);
    RestoreOneToken(later.tokenToOriginal, t);
  }

  lemma {:induction false} RestoreOneToken(v: map<Text, Text>, t: Text)
    requires AllShaped(v.Keys) && t in v
    ensures Restore(v, t) == v[t]
  {
    hide Restore;
    RestoreTokenFirst(v, t, t);
    RestoreNothing(v, []);
    assert t[|t|..] == [] && v[t] + [] == v[t];
  }
}
