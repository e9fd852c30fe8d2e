/** The `<NAME_n>` token grammar and the template namespace check
    (src/core/privacy.rs, `validate_template`, `template_prefix`, `digit_suffix_collides`). */
module TokenGrammar {
  import opened Bytes

  // ----- counters as decimal text -----

  function Decimal(n: nat): (d: Text)
    ensures |d| >= 1
    ensures forall i | 0 <= i < |d| :: IsDigit(d[i])
    ensures n > 0 ==> d[0] != ZERO
  {
    if n < 10 then [ZERO + n] else Decimal(n / 10) + [ZERO + n % 10]
  }

  predicate AllDigits(d: Text) { forall i | 0 <= i < |d| :: IsDigit(d[i]) }

  function DecimalValue(d: Text): nat
    requires AllDigits(d)
  {
    if d == [] then 0 else DecimalValue(d[..|d| - 1]) * 10 + (d[|d| - 1] - ZERO)
  }

  lemma {:induction false} DecimalValueInverse(n: nat)
    ensures DecimalValue(Decimal(n)) == n
  {
    var d := Decimal(n);
    if n < 10 {
      assert d[..0] == [];
    } else {
      DecimalValueInverse(n / 10);
      assert d[..|d| - 1] == Decimal(n / 10);
    }
  }

  /** Every digit string without a leading zero is the rendering of its value. */
  lemma {:induction false} DecimalInverse(d: Text)
    requires |d| >= 1 && AllDigits(d) && d[0] != ZERO
    ensures DecimalValue(d) >= 1 && Decimal(DecimalValue(d)) == d
    decreases |d|
  {
    if |d| == 1 {
      assert d[..0] == [];
    } else {
      var front, last := d[..|d| - 1], d[|d| - 1] - ZERO;
      DecimalInverse(front);
      assert DecimalValue(d) / 10 == DecimalValue(front);
      assert DecimalValue(d) % 10 == last;
      assert d == front + [ZERO + last];
    }
  }

  lemma {:induction false} DecimalInjective(n: nat, m: nat)
    requires Decimal(n) == Decimal(m)
    ensures n == m
  {
    DecimalValueInverse(n);
    DecimalValueInverse(m);
  }

  lemma {:induction false} DecimalLength(n: nat)
    requires n < 10000
    ensures |Decimal(n)| <= 4
  {
    assert n >= 10 ==> |Decimal(n)| == |Decimal(n / 10)| + 1;
    assert n >= 100 ==> |Decimal(n / 10)| == |Decimal(n / 10 / 10)| + 1;
    assert n >= 1000 ==> |Decimal(n / 10 / 10)| == |Decimal(n / 10 / 10 / 10)| + 1;
  }

  // ----- templates -----

  predicate IsNameByte(b: byte) { IsAlnum(b) || b == UNDERSCORE }

  predicate ValidName(name: Text) {
    |name| >= 1 && forall i | 0 <= i < |name| :: IsNameByte(name[i])
  }

  const SLOT: Text := [LBRACE, 110, RBRACE] // "{n}"

  function TemplateOf(name: Text): Text { [LT] + name + SLOT + [GT] }

  function Count(s: Text, b: byte): nat {
    if s == [] then 0 else (if s[0] == b then 1 else 0) + Count(s[1..], b)
  }

  /** `validate_template`: the checks in the order the source makes them. */
  predicate ValidateTemplate(t: Text) {
    && |t| >= 1 && t[0] == LT
    && |t| >= 2 && t[|t| - 1] == GT
    && var rest := t[1..|t| - 1];
       && Count(rest, LBRACE) == 1 && Count(rest, RBRACE) == 1
       && |rest| >= 3 && rest[|rest| - 3..] == SLOT
       && ValidName(rest[..|rest| - 3])
  }

  lemma {:induction false} CountConcat(a: Text, b: Text, x: byte)
    ensures Count(a + b, x) == Count(a, x) + Count(b, x)
  {
    if a == [] {
      assert a + b == b;
    } else {
      CountConcat(a[1..], b, x);
      assert (a + b)[1..] == a[1..] + b;
    }
  }

  lemma {:induction false} NameHasNoBraces(name: Text, x: byte)
    requires forall i | 0 <= i < |name| :: IsNameByte(name[i])
    requires !IsNameByte(x)
    ensures Count(name, x) == 0
  {
    if name != [] {
      NameHasNoBraces(name[1..], x);
    }
  }

  lemma {:induction false} SlotHasItsBraces()
    ensures Count(SLOT, LBRACE) == 1 && Count(SLOT, RBRACE) == 1
  {
    forall x: byte ensures Count([RBRACE], x) == if x == RBRACE then 1 else 0 {
      assert [RBRACE][1..] == [];
    }
    assert SLOT[1..] == [110, RBRACE] && SLOT[1..][1..] == [RBRACE];
    assert Count([110, RBRACE], LBRACE) == 0 && Count([110, RBRACE], RBRACE) == 1;
  }

  /** The validator accepts exactly the texts of the documented grammar `<NAME{n}>`. */
  lemma {:induction false} ValidateTemplateExact(t: Text)
    ensures ValidateTemplate(t) <==> exists name :: ValidName(name) && t == TemplateOf(name)
    ensures ValidateTemplate(t) ==> ValidName(TemplatePrefix(t)) && t == TemplateOf(TemplatePrefix(t))
  {
    hide Count;
    if ValidateTemplate(t) {
      var rest := t[1..|t| - 1];
      var name := TemplatePrefix(t);
      assert name == rest[..|rest| - 3];
      assert t == [t[0]] + rest + [t[|t| - 1]];
      assert rest == name + SLOT;
      assert t == TemplateOf(name);
    }
    if exists name :: ValidName(name) && t == TemplateOf(name) {
      var name :| ValidName(name) && t == TemplateOf(name);
      var rest := t[1..|t| - 1];
      assert rest == name + SLOT;
      CountConcat(name, SLOT, LBRACE);
      CountConcat(name, SLOT, RBRACE);
      NameHasNoBraces(name, LBRACE);
      NameHasNoBraces(name, RBRACE);
      SlotHasItsBraces();
      assert rest[|rest| - 3..] == SLOT && rest[..|rest| - 3] == name;
    }
  }

  /** `template_prefix`: the name between the leading `<` and the trailing `{n}>`. */
  function TemplatePrefix(t: Text): Text {
    if |t| >= 5 then t[1..|t| - 4] else []
  }

  /** `str::replace("{n}", ...)`: every slot, left to right, without overlap. */
  function ReplaceSlot(t: Text, digits: Text): Text
    decreases |t|
  {
    if t == [] then []
    else if SLOT <= t then digits + ReplaceSlot(t[3..], digits)
    else [t[0]] + ReplaceSlot(t[1..], digits)
  }

  /** The token the grammar assigns to a name and a counter. */
  function Token(name: Text, n: nat): Text { [LT] + name + Decimal(n) + [GT] }

  lemma {:induction false} ReplaceAfterName(name: Text, digits: Text)
    requires forall i | 0 <= i < |name| :: name[i] != LBRACE
    ensures ReplaceSlot(name + SLOT + [GT], digits) == name + digits + [GT]
  {
    var t := name + SLOT + [GT];
    if name == [] {
      assert t == SLOT + [GT];
      assert t[3..] == [GT];
      assert !(SLOT <= [GT]);
      assert ReplaceSlot([GT], digits) == [GT] + ReplaceSlot([GT][1..], digits);
      assert [GT][1..] == [];
    } else {
      assert t[0] == name[0] && !(SLOT <= t);
      ReplaceAfterName(name[1..], digits);
      assert t[1..] == name[1..] + SLOT + [GT];
    }
  }

  /** Substituting the counter in an accepted template mints the grammar's token. */
  lemma {:induction false} MintedShape(t: Text, n: nat)
    requires ValidateTemplate(t)
    ensures ReplaceSlot(t, Decimal(n)) == Token(TemplatePrefix(t), n)
  {
    ValidateTemplateExact(t);
    var name := TemplatePrefix(t);
    var ext := [LT] + name;
    assert t == ext + SLOT + [GT];
    ReplaceAfterName(ext, Decimal(n));
  }

  /** What every token looks like: `<`, name bytes, `>`. */
  predicate Shaped(t: Text) {
    && |t| >= 2 && t[0] == LT && t[|t| - 1] == GT
    && forall i | 0 < i < |t| - 1 :: IsNameByte(t[i])
  }

  lemma {:induction false} TokenIsShaped(name: Text, n: nat)
    requires ValidName(name)
    ensures Shaped(Token(name, n))
  {
    var t, d := Token(name, n), Decimal(n);
    forall i | 0 < i < |t| - 1 ensures IsNameByte(t[i]) {
      if i <= |name| {
        assert t[i] == name[i - 1];
      } else {
        assert t[i] == d[i - 1 - |name|];
      }
    }
  }

  // ----- namespaces -----

  /** `digit_suffix_collides`. */
  predicate DigitSuffixCollides(pa: Text, pb: Text) {
    var (long, short) := if |pa| >= |pb| then (pa, pb) else (pb, pa);
    && short <= long
    && var suffix := long[|short|..];
       suffix != [] && AllDigits(suffix) && suffix[0] != ZERO
  }

  lemma {:induction false} SuffixMeetsCounter(short: Text, suffix: Text)
    requires suffix != [] && AllDigits(suffix) && suffix[0] != ZERO
    ensures exists n: nat :: n >= 1 && Token(short + suffix, 1) == Token(short, n)
  {
    var d := suffix + [ZERO + 1];
    DecimalInverse(d);
    var n := DecimalValue(d);
    assert Decimal(1) == [ZERO + 1];
    assert Token(short + suffix, 1) == [LT] + short + d + [GT] == Token(short, n);
  }

  lemma {:induction false} EqualTokensSplit(long: Text, short: Text, n: nat, m: nat)
    requires |long| >= |short| && m >= 1
    requires Token(long, n) == Token(short, m)
    ensures short <= long
    ensures long == short ==> n == m
    ensures long != short ==> DigitSuffixCollides(long, short)
  {
    var t, dm := Token(long, n), Decimal(m);
    assert t == Token(short, m);
    assert t[1..|t| - 1] == long + Decimal(n);
    assert t[1..|t| - 1] == short + dm;
    var body := long + Decimal(n);
    assert body == short + dm;
    assert short == body[..|short|] == long[..|short|];
    var suffix := long[|short|..];
    forall i | 0 <= i < |suffix| ensures suffix[i] == dm[i] {
      assert suffix[i] == body[|short| + i];
    }
    if long == short {
      assert Decimal(n) == body[|long|..] == dm;
      DecimalInjective(n, m);
    }
  }

  /** The collision check is exact: two distinct names are rejected if and only if some
      pair of counters makes them mint the same token. */
  lemma {:induction false} CollisionCheckExact(pa: Text, pb: Text)
    requires pa != pb
    ensures DigitSuffixCollides(pa, pb) <==>
            exists n: nat, m: nat :: n >= 1 && m >= 1 && Token(pa, n) == Token(pb, m)
  {
    if DigitSuffixCollides(pa, pb) {
      if |pa| >= |pb| {
        SuffixMeetsCounter(pb, pa[|pb|..]);
        assert pa == pb + pa[|pb|..];
        var n: nat :| n >= 1 && Token(pa, 1) == Token(pb, n);
      } else {
        SuffixMeetsCounter(pa, pb[|pa|..]);
        assert pb == pa + pb[|pa|..];
        var n: nat :| n >= 1 && Token(pb, 1) == Token(pa, n);
      }
    }
    forall n: nat, m: nat | n >= 1 && m >= 1 && Token(pa, n) == Token(pb, m)
      ensures DigitSuffixCollides(pa, pb)
    {
      if |pa| >= |pb| {
        EqualTokensSplit(pa, pb, n, m);
      } else {
        EqualTokensSplit(pb, pa, m, n);
      }
    }
  }

  predicate Disjoint(pa: Text, pb: Text) { pa != pb && !DigitSuffixCollides(pa, pb) }

  /** Every pair of templates has its own namespace: what `RedactionEngine::new` accepts. */
  predicate Accepted(templates: seq<Text>) {
    && (forall i | 0 <= i < |templates| :: ValidateTemplate(templates[i]))
    && (forall i, j | 0 <= i < j < |templates| ::
          Disjoint(TemplatePrefix(templates[i]), TemplatePrefix(templates[j])))
  }

  /** On an accepted engine distinct (template, counter) pairs mint distinct tokens. */
  lemma {:induction false} TokensDistinct(ts: seq<Text>, i: nat, j: nat, n: nat, m: nat)
    requires Accepted(ts) && i < |ts| && j < |ts| && n >= 1 && m >= 1
    requires ReplaceSlot(ts[i], Decimal(n)) == ReplaceSlot(ts[j], Decimal(m))
    ensures i == j && n == m
  {
    MintedShape(ts[i], n);
    MintedShape(ts[j], m);
    var pi, pj := TemplatePrefix(ts[i]), TemplatePrefix(ts[j]);
    if pi == pj {
      EqualTokensSplit(pi, pj, n, m);
    } else {
      CollisionCheckExact(pi, pj);
      CollisionCheckExact(pj, pi);
    }
  }

  /** The namespace loop of `RedactionEngine::new`. */
  method CheckNamespaces(templates: seq<Text>) returns (ok: bool)
    requires forall i | 0 <= i < |templates| :: ValidateTemplate(templates[i])
    ensures ok <==> Accepted(templates)
  {
    var i := 0;
    while i < |templates|
      invariant 0 <= i <= |templates|
      invariant forall a, b | 0 <= a < i && a < b < |templates| ::
                  Disjoint(TemplatePrefix(templates[a]), TemplatePrefix(templates[b]))
    {
      var j := i + 1;
      while j < |templates|
        invariant i < j <= |templates|
        invariant forall b | i < b < j ::
                    Disjoint(TemplatePrefix(templates[i]), TemplatePrefix(templates[b]))
      {
        var pa, pb := TemplatePrefix(templates[i]), TemplatePrefix(templates[j]);
        if pa == pb || DigitSuffixCollides(pa, pb) {
          return false;
        }
        j := j + 1;
      }
      i := i + 1;
    }
    return true;
  }
}
