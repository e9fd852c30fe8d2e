/** The redaction engine and the session vault
    (src/core/privacy.rs, `RedactionEngine::new`, `Vault`, `token_for`, `with_automaton`). */
module Vault {
  import opened Bytes
  import opened TokenGrammar
  import opened TokenSearch

  const MAX_SESSION_TOKENS: nat := 4096

  type Span = (nat, nat)

  /** A compiled rule.  `matches` stands for the regex: the spans `captures_iter` yields. */
  datatype Rule = Rule(name: string, template: Text, matches: Text -> seq<Span>)

  /** `allowed` stands for `is_allowed`: any allow-list at all. */
  datatype Engine = Engine(rules: seq<Rule>, allowed: Text -> bool, maxTokenLen: nat)

  predicate ValidSpans(spans: seq<Span>, n: nat) {
    && (forall x | 0 <= x < |spans| :: spans[x].0 < spans[x].1 <= n)
    && (forall x, y | 0 <= x < y < |spans| :: spans[x].1 <= spans[y].0)
  }

  /** The regex never matches the empty string; its matches are sorted and disjoint. */
  ghost predicate RuleOk(rule: Rule) {
    forall s :: ValidSpans(rule.matches(s), |s|)
  }

  ghost predicate RulesOk(rules: seq<Rule>) { forall i | 0 <= i < |rules| :: RuleOk(rules[i]) }

  function Templates(rules: seq<Rule>): (ts: seq<Text>)
    ensures |ts| == |rules|
    ensures forall i | 0 <= i < |rules| :: ts[i] == rules[i].template
  {
    seq(|rules|, i requires 0 <= i < |rules| => rules[i].template)
  }

  /** Longest token a template can mint: the template without its slot, plus counter room. */
  function TokenRoom(template: Text): nat { (if |template| >= 3 then |template| - 3 else 0) + 12 }

  predicate IsMaxTokenLen(rules: seq<Rule>, m: nat) {
    && m >= 16 && (forall i | 0 <= i < |rules| :: TokenRoom(rules[i].template) <= m)
    && (m == 16 || exists i | 0 <= i < |rules| :: TokenRoom(rules[i].template) == m)
  }

  predicate ValidEngine(e: Engine) {
    Accepted(Templates(e.rules)) && IsMaxTokenLen(e.rules, e.maxTokenLen)
  }

  /** One entry of `privacy_guard.rules`. */
  datatype RuleConfig = RuleConfig(name: string, pattern: string, replacement: Text)

  /** `privacy_guard`: `allowed` is what the allow-list comes to, `allowPatterns` its regexes. */
  datatype Config = Config(vault: string, rules: seq<RuleConfig>, allowPatterns: seq<string>, allowed: Text -> bool)

  /** `Regex::new`: the spans a pattern matches, if it compiles. */
  type Compiler = string -> Option<Text -> seq<Span>>

  predicate IsBlank(c: char) {
    var x := c as int;
    9 <= x <= 13 || x == 0x20 || x == 0x85 || x == 0xA0 || x == 0x1680 || 0x2000 <= x <= 0x200A
    || x == 0x2028 || x == 0x2029 || x == 0x202F || x == 0x205F || x == 0x3000
  }

  /** `name.trim().is_empty()`. */
  predicate Blank(name: string) { forall i | 0 <= i < |name| :: IsBlank(name[i]) }

  const PROBES: seq<Text> := [Ascii("a"), Ascii("a b"), Ascii(" a"), Ascii("a "), Ascii("123"), [0xC3, 0xA9], Ascii(" ")]

  /** `can_match_empty`: the probe strings only. */
  predicate CanMatchEmpty(matches: Text -> seq<Span>) {
    (exists p, x | 0 <= p < |PROBES| && 0 <= x < |matches(PROBES[p])| ::
       matches(PROBES[p])[x].0 == matches(PROBES[p])[x].1)
    || matches([]) != []
  }

  /** A custom rule the constructor takes. */
  predicate RuleTaken(compile: Compiler, c: RuleConfig) {
    && !Blank(c.name) && ValidateTemplate(c.replacement)
    && compile(c.pattern).Some? && !CanMatchEmpty(compile(c.pattern).value)
  }

  predicate NoEmptyMatch(spans: seq<Span>) { forall x | 0 <= x < |spans| :: spans[x].0 != spans[x].1 }

  /** What a taken rule's pattern has been probed for: no empty match in `a`, `a b`, ` a`, `a `, `123`, the
      two bytes of e-acute and a single space, and no match at all in the empty text. */
  lemma {:induction false} TakenRuleIsProbed(compile: Compiler, c: RuleConfig)
    requires RuleTaken(compile, c)
    ensures var matches := compile(c.pattern).value;
            && NoEmptyMatch(matches([97])) && NoEmptyMatch(matches([97, 32, 98])) && NoEmptyMatch(matches([32, 97]))
            && NoEmptyMatch(matches([97, 32])) && NoEmptyMatch(matches([49, 50, 51]))
            && NoEmptyMatch(matches([195, 169])) && NoEmptyMatch(matches([32])) && matches([]) == []
  {
    hide Blank, ValidateTemplate;
    var matches := compile(c.pattern).value;
    forall p | 0 <= p < 7 ensures NoEmptyMatch(matches(PROBES[p])) {
    }
    assert PROBES[0] == [97] && PROBES[1] == [97, 32, 98] && PROBES[2] == [32, 97] && PROBES[3] == [97, 32];
    assert PROBES[4] == [49, 50, 51] && PROBES[5] == [195, 169] && PROBES[6] == [32];
  }

  /** The rules in force: the configured ones, or the built-in ones if there are none. */
  function RulesInForce(config: Config): seq<RuleConfig> { if config.rules == [] then DEFAULT_RULES else config.rules }

  predicate Compiles(compile: Compiler, cs: seq<RuleConfig>) { forall i | 0 <= i < |cs| :: compile(cs[i].pattern).Some? }

  function Compiled(compile: Compiler, cs: seq<RuleConfig>): (rules: seq<Rule>)
    requires Compiles(compile, cs)
    ensures |rules| == |cs|
    ensures forall i | 0 <= i < |cs| :: rules[i] == Rule(cs[i].name, cs[i].replacement, compile(cs[i].pattern).value)
  {
    seq(|cs|, i requires 0 <= i < |cs| => Rule(cs[i].name, cs[i].replacement, compile(cs[i].pattern).value))
  }

  function Replacements(cs: seq<RuleConfig>): (ts: seq<Text>)
    ensures |ts| == |cs| && forall i | 0 <= i < |cs| :: ts[i] == cs[i].replacement
  {
    seq(|cs|, i requires 0 <= i < |cs| => cs[i].replacement)
  }

  /** A configuration the constructor takes. */
  predicate ConfigTaken(compile: Compiler, config: Config) {
    && config.vault == "memory"
    && (forall i | 0 <= i < |config.rules| :: RuleTaken(compile, config.rules[i]))
    && Accepted(Replacements(RulesInForce(config)))
    && (forall i | 0 <= i < |config.allowPatterns| :: compile(config.allowPatterns[i]).Some?)
  }

  /** `RedactionEngine::new`: fails closed exactly when the backend is unknown, a rule has a blank
      name, a template outside the grammar, a bad pattern or one that matches a probe emptily, two
      templates could ever mint the same token, or an allow pattern is bad.  Without rules the
      built-in ones are in force. */
  method NewEngine(compile: Compiler, config: Config) returns (r: Result<Engine>)
    requires Compiles(compile, DEFAULT_RULES)
    ensures r.Ok? <==> ConfigTaken(compile, config)
    ensures r.Ok? ==>
              && ValidEngine(r.value) && r.value.allowed == config.allowed
              && Compiles(compile, RulesInForce(config)) && r.value.rules == Compiled(compile, RulesInForce(config))
  {
    hide ValidateTemplate, Accepted, CanMatchEmpty, Blank;
    if config.vault != "memory" {
      return Err("unsupported vault backend");
    }
    var i := 0;
    while i < |config.rules|
      invariant 0 <= i <= |config.rules| && forall j | 0 <= j < i :: RuleTaken(compile, config.rules[j])
    {
      if !RuleTaken(compile, config.rules[i]) {
        return Err("rule refused");
      }
      i := i + 1;
    }
    var rules := Compiled(compile, RulesInForce(config));
    assert Templates(rules) == Replacements(RulesInForce(config));
    TemplatesInForce(compile, config);
    var ok := CheckNamespaces(Templates(rules));
    if !ok {
      return Err("colliding replacement templates");
    }
    var k := 0;
    while k < |config.allowPatterns|
      invariant 0 <= k <= |config.allowPatterns|
      invariant forall j | 0 <= j < k :: compile(config.allowPatterns[j]).Some?
    {
      if compile(config.allowPatterns[k]).None? {
        return Err("invalid allow pattern");
      }
      k := k + 1;
    }
    var m := MaxTokenLen(rules);
    return Ok(Engine(rules, config.allowed, m));
  }

  /** `max_token_len`: the most room any template needs, at least 16. */
  method MaxTokenLen(rules: seq<Rule>) returns (m: nat)
    ensures IsMaxTokenLen(rules, m)
  {
    var i := 0;
    m := 16;
    while i < |rules|
      invariant 0 <= i <= |rules| && IsMaxTokenLen(rules[..i], m)
    {
      if TokenRoom(rules[i].template) > m {
        m := TokenRoom(rules[i].template);
        assert TokenRoom(rules[..i + 1][i].template) == m;
      } else if m != 16 {
        var j :| 0 <= j < i && TokenRoom(rules[..i][j].template) == m;
        assert TokenRoom(rules[..i + 1][j].template) == m;
      }
      i := i + 1;
    }
    assert rules[..i] == rules;
  }

  /** The built-in templates, which are not validated, are in the grammar too. */
  lemma {:induction false} TemplatesInForce(compile: Compiler, config: Config)
    requires forall i | 0 <= i < |config.rules| :: RuleTaken(compile, config.rules[i])
    ensures forall i | 0 <= i < |RulesInForce(config)| :: ValidateTemplate(RulesInForce(config)[i].replacement)
  {
    hide ValidateTemplate;
    if config.rules == [] {
      assert Replacements(DEFAULT_RULES) == DEFAULT_TEMPLATES;
      forall i | 0 <= i < 4 ensures ValidateTemplate(DEFAULT_RULES[i].replacement) {
        DefaultTemplateIsValid(i);
        assert DEFAULT_RULES[i].replacement == DEFAULT_TEMPLATES[i];
      }
    }
  }

  const DEFAULT_RULES: seq<RuleConfig> := [
    RuleConfig("EMAIL", @"\b[A-Za-z0-9._%+-]+@[A-Za-z0-9.-]+\.[A-Za-z]{2,}\b", Ascii("<EMAIL_{n}>")),
    RuleConfig("IPV4", @"\b(?:(?:25[0-5]|2[0-4]\d|1?\d?\d)\.){3}(?:25[0-5]|2[0-4]\d|1?\d?\d)\b", Ascii("<IP_{n}>")),
    RuleConfig("PHONE", @"\b\d{3}[-.)]\d{3}[-.]\d{4}\b", Ascii("<PHONE_{n}>")),
    RuleConfig("API_KEY", @"\b(?:sk|pk)-[A-Za-z0-9]{20,64}\b", Ascii("<SECRET_{n}>"))]

  const DEFAULT_TEMPLATES: seq<Text> :=
    [Ascii("<EMAIL_{n}>"), Ascii("<IP_{n}>"), Ascii("<PHONE_{n}>"), Ascii("<SECRET_{n}>")]

  const DEFAULT_NAMES: seq<Text> :=
    [Ascii("EMAIL_"), Ascii("IP_"), Ascii("PHONE_"), Ascii("SECRET_")]

  lemma {:induction false} DefaultTemplateIsValid(i: nat)
    requires i < 4
    ensures ValidateTemplate(DEFAULT_TEMPLATES[i])
    ensures TemplatePrefix(DEFAULT_TEMPLATES[i]) == DEFAULT_NAMES[i]
  {
    hide ValidateTemplate, TemplatePrefix, TemplateOf, ValidName;
    DefaultNameIsValid(i);
    DefaultTemplateIs(i);
    NamedTemplateIsValid(DEFAULT_NAMES[i]);
  }

  lemma {:induction false} DefaultNameIsValid(i: nat)
    requires i < 4
    ensures ValidName(DEFAULT_NAMES[i])
  {
  }

  lemma {:induction false} DefaultTemplateIs(i: nat)
    requires i < 4
    ensures DEFAULT_TEMPLATES[i] == TemplateOf(DEFAULT_NAMES[i])
  {
  }

  lemma {:induction false} NamedTemplateIsValid(name: Text)
    requires ValidName(name)
    ensures ValidateTemplate(TemplateOf(name)) && TemplatePrefix(TemplateOf(name)) == name
  {
    hide ValidateTemplate, ValidName;
    ValidateTemplateExact(TemplateOf(name));
    assert TemplateOf(name)[1..|name| + 1] == name;
  }

  /** The built-in rule set, which the source does not re-validate, is an accepted one. */
  lemma {:induction false} DefaultsAccepted()
    ensures Accepted(DEFAULT_TEMPLATES)
  {
    hide ValidateTemplate, TemplatePrefix;
    forall i | 0 <= i < 4
      ensures ValidateTemplate(DEFAULT_TEMPLATES[i])
      ensures TemplatePrefix(DEFAULT_TEMPLATES[i]) == DEFAULT_NAMES[i]
    {
      DefaultTemplateIsValid(i);
    }
    assert DEFAULT_NAMES[0][0] == 69 && DEFAULT_NAMES[1][0] == 73;
    assert DEFAULT_NAMES[2][0] == 80 && DEFAULT_NAMES[3][0] == 83;
  }

  // ----- the vault as a value -----

  datatype VaultState = VaultState(
    tokenToOriginal: map<Text, Text>,
    valueToToken: map<(string, Text), Text>,
    counters: map<string, nat>,
    version: nat)

  const EMPTY_VAULT := VaultState(map[], map[], map[], 0)

  function CounterOf(st: VaultState, name: string): nat {
    if name in st.counters then st.counters[name] else 0
  }

  /** `rule.template.replace("{n}", &n.to_string())`. */
  function TokenText(rule: Rule, n: nat): Text { ReplaceSlot(rule.template, Decimal(n)) }

  /** `token_for`: reuse, refuse at the cap, or mint. */
  function Mint(rule: Rule, st: VaultState, original: Text): (VaultState, Result<Text>) {
    var key := (rule.name, original);
    if key in st.valueToToken then (st, Ok(st.valueToToken[key]))
    else if |st.tokenToOriginal| >= MAX_SESSION_TOKENS then (st, Err("session token cap reached"))
    else
      var n := CounterOf(st, rule.name) + 1;
      var bumped := st.(counters := st.counters[rule.name := n]);
      var token := TokenText(rule, n);
      if token in st.tokenToOriginal && st.tokenToOriginal[token] != original
      then (bumped, Err("token already maps to a different original"))
      else (bumped.(tokenToOriginal := st.tokenToOriginal[token := original],
                    valueToToken := st.valueToToken[key := token],
                    version := st.version + 1), Ok(token))
  }

  /** `t` was minted by rule `i` at counter `n`. */
  predicate MintedAs(rules: seq<Rule>, st: VaultState, t: Text, i: nat, n: nat) {
    i < |rules| && 1 <= n <= CounterOf(st, rules[i].name) && t == TokenText(rules[i], n)
  }

  ghost predicate Minted(rules: seq<Rule>, st: VaultState, t: Text) {
    exists i, n :: MintedAs(rules, st, t, i, n)
  }

  /** Every token comes from a rule and a counter that rule's name has already used. */
  ghost predicate AllMinted(rules: seq<Rule>, st: VaultState) {
    forall t | t in st.tokenToOriginal :: Minted(rules, st, t)
  }

  ghost predicate Assigned(st: VaultState, t: Text) {
    exists key :: key in st.valueToToken && st.valueToToken[key] == t
  }

  /** The two maps are inverse views of one relation. */
  ghost predicate MapsAgree(st: VaultState) {
    && (forall key | key in st.valueToToken ::
          && st.valueToToken[key] in st.tokenToOriginal
          && st.tokenToOriginal[st.valueToToken[key]] == key.1)
    && (forall t | t in st.tokenToOriginal :: Assigned(st, t))
    && (forall k1, k2 | k1 in st.valueToToken && k2 in st.valueToToken
                        && st.valueToToken[k1] == st.valueToToken[k2] :: k1 == k2)
  }

  ghost predicate Bounded(st: VaultState) {
    && (forall name | name in st.counters :: st.counters[name] <= |st.tokenToOriginal|)
    && st.version == |st.tokenToOriginal| <= MAX_SESSION_TOKENS
  }

  ghost predicate VaultInv(rules: seq<Rule>, st: VaultState) {
    AllMinted(rules, st) && MapsAgree(st) && Bounded(st)
  }

  /** A counter that has not been used yet mints a token the vault has never seen, even when
      rules share a name and therefore a counter. */
  lemma {:induction false} NextTokenIsFresh(rules: seq<Rule>, st: VaultState, i: nat)
    requires Accepted(Templates(rules)) && AllMinted(rules, st) && i < |rules|
    ensures TokenText(rules[i], CounterOf(st, rules[i].name) + 1) !in st.tokenToOriginal
  {
    hide ReplaceSlot, Decimal, Accepted;
    var n := CounterOf(st, rules[i].name) + 1;
    var token := TokenText(rules[i], n);
    if token in st.tokenToOriginal {
      assert Minted(rules, st, token);
      var j: nat, m: nat :| MintedAs(rules, st, token, j, m);
      TokensDistinct(Templates(rules), i, j, n, m);
      assert false;
    }
  }

  ghost predicate Extends(st: VaultState, st': VaultState) {
    && (forall t | t in st.tokenToOriginal ::
          t in st'.tokenToOriginal && st'.tokenToOriginal[t] == st.tokenToOriginal[t])
    && (forall key | key in st.valueToToken ::
          key in st'.valueToToken && st'.valueToToken[key] == st.valueToToken[key])
    && st.version <= st'.version
  }

  /** The vault after `token` is minted for `original` at counter `n`. */
  function WithToken(st: VaultState, name: string, n: nat, token: Text, original: Text): VaultState {
    VaultState(st.tokenToOriginal[token := original], st.valueToToken[(name, original) := token],
               st.counters[name := n], st.version + 1)
  }

  lemma {:induction false} FreshKeepsMinted(rules: seq<Rule>, st: VaultState, i: nat, original: Text)
    requires AllMinted(rules, st) && i < |rules|
    ensures var n := CounterOf(st, rules[i].name) + 1;
            AllMinted(rules, WithToken(st, rules[i].name, n, TokenText(rules[i], n), original))
  {
    hide TokenText;
    var n := CounterOf(st, rules[i].name) + 1;
    var token := TokenText(rules[i], n);
    var st' := WithToken(st, rules[i].name, n, token, original);
    forall t | t in st'.tokenToOriginal ensures Minted(rules, st', t) {
      if t == token {
        assert MintedAs(rules, st', t, i, n);
      } else {
        assert Minted(rules, st, t);
        var j: nat, m: nat :| MintedAs(rules, st, t, j, m);
        assert MintedAs(rules, st', t, j, m);
      }
    }
  }

  lemma {:induction false} FreshKeepsMaps(st: VaultState, name: string, n: nat, token: Text, original: Text)
    requires MapsAgree(st) && (name, original) !in st.valueToToken && token !in st.tokenToOriginal
    ensures MapsAgree(WithToken(st, name, n, token, original))
  {
    var st' := WithToken(st, name, n, token, original);
    forall t | t in st'.tokenToOriginal ensures Assigned(st', t) {
      if t == token {
        assert st'.valueToToken[(name, original)] == t;
      } else {
        assert Assigned(st, t);
        var k :| k in st.valueToToken && st.valueToToken[k] == t;
        assert st'.valueToToken[k] == t;
      }
    }
  }

  lemma {:induction false} FreshKeepsBounds(st: VaultState, name: string, token: Text, original: Text)
    requires Bounded(st) && token !in st.tokenToOriginal
    requires |st.tokenToOriginal| < MAX_SESSION_TOKENS
    ensures Bounded(WithToken(st, name, CounterOf(st, name) + 1, token, original))
  {
    assert |st.tokenToOriginal[token := original]| == |st.tokenToOriginal| + 1;
  }

  /** What a mint does on an accepted engine: three cases, not four. */
  lemma {:induction false} MintCases(rules: seq<Rule>, st: VaultState, i: nat, original: Text)
    requires Accepted(Templates(rules)) && VaultInv(rules, st) && i < |rules|
    ensures |st.tokenToOriginal| <= MAX_SESSION_TOKENS
    ensures var key := (rules[i].name, original);
            var n := CounterOf(st, rules[i].name) + 1;
            var token := TokenText(rules[i], n);
            if key in st.valueToToken then
              Mint(rules[i], st, original) == (st, Ok(st.valueToToken[key]))
            else if |st.tokenToOriginal| == MAX_SESSION_TOKENS then
              Mint(rules[i], st, original).0 == st && Mint(rules[i], st, original).1.Err?
            else
              && token !in st.tokenToOriginal
              && Mint(rules[i], st, original)
                 == (WithToken(st, rules[i].name, n, token, original), Ok(token))
  {
    hide TokenText, Accepted, AllMinted, MapsAgree;
    NextTokenIsFresh(rules, st, i);
  }

  lemma {:induction false} ReusedTokenMapsBack(rules: seq<Rule>, st: VaultState, key: (string, Text))
    requires VaultInv(rules, st) && key in st.valueToToken
    ensures st.valueToToken[key] in st.tokenToOriginal
    ensures st.tokenToOriginal[st.valueToToken[key]] == key.1
  {
  }

  lemma {:induction false} FreshMintKeepsInv(rules: seq<Rule>, st: VaultState, i: nat, original: Text)
    requires VaultInv(rules, st) && i < |rules|
    requires (rules[i].name, original) !in st.valueToToken
    requires |st.tokenToOriginal| < MAX_SESSION_TOKENS
    requires TokenText(rules[i], CounterOf(st, rules[i].name) + 1) !in st.tokenToOriginal
    ensures var n := CounterOf(st, rules[i].name) + 1;
            VaultInv(rules, WithToken(st, rules[i].name, n, TokenText(rules[i], n), original))
  {
    hide TokenText, AllMinted, MapsAgree, Bounded;
    var name, n := rules[i].name, CounterOf(st, rules[i].name) + 1;
    FreshKeepsMinted(rules, st, i, original);
    FreshKeepsMaps(st, name, n, TokenText(rules[i], n), original);
    FreshKeepsBounds(st, name, TokenText(rules[i], n), original);
  }

  /** One mint: the invariant is kept, nothing minted is ever lost or changed, the
      different-original branch cannot be reached, and only the cap makes it fail. */
  lemma {:induction false} MintKeepsInv(rules: seq<Rule>, st: VaultState, i: nat, original: Text)
    requires Accepted(Templates(rules)) && VaultInv(rules, st) && i < |rules|
    ensures var (st', r) := Mint(rules[i], st, original);
            && VaultInv(rules, st') && Extends(st, st')
            && (r.Err? <==> (rules[i].name, original) !in st.valueToToken
                            && |st.tokenToOriginal| == MAX_SESSION_TOKENS)
            && (r.Err? ==> st' == st)
            && (r.Ok? ==> && r.value in st'.tokenToOriginal
                          && st'.tokenToOriginal[r.value] == original
                          && (rules[i].name, original) in st'.valueToToken
                          && st'.valueToToken[(rules[i].name, original)] == r.value)
  {
    hide Mint, VaultInv, Accepted, MapsAgree, Bounded;
    MintCases(rules, st, i, original);
    var name := rules[i].name;
    if (name, original) in st.valueToToken {
      ReusedTokenMapsBack(rules, st, (name, original));
    } else if |st.tokenToOriginal| < MAX_SESSION_TOKENS {
      FreshMintKeepsInv(rules, st, i, original);
    }
  }

  /** Any sequence of mints, by any rules in any order. */
  ghost function MintAll(rules: seq<Rule>, st: VaultState, asks: seq<(nat, Text)>): VaultState
    requires forall x | 0 <= x < |asks| :: asks[x].0 < |rules|
    decreases |asks|
  {
    if asks == [] then st
    else MintAll(rules, Mint(rules[asks[0].0], st, asks[0].1).0, asks[1..])
  }

  /** Over every sequence of mints the invariant holds and nothing minted is lost. */
  lemma {:induction false} VaultOverRuns(rules: seq<Rule>, st: VaultState, asks: seq<(nat, Text)>)
    requires Accepted(Templates(rules)) && VaultInv(rules, st)
    requires forall x | 0 <= x < |asks| :: asks[x].0 < |rules|
    ensures VaultInv(rules, MintAll(rules, st, asks)) && Extends(st, MintAll(rules, st, asks))
    decreases |asks|
  {
    hide Mint, VaultInv, Accepted;
    if asks != [] {
      MintKeepsInv(rules, st, asks[0].0, asks[0].1);
      VaultOverRuns(rules, Mint(rules[asks[0].0], st, asks[0].1).0, asks[1..]);
    }
  }

  /** Asking again, after any run of other mints and under any rule of the same name, gives
      the token an equal (rule name, value) pair got first and leaves the vault alone. */
  lemma {:induction false} EqualPairsKeepTheirToken(rules: seq<Rule>, st: VaultState, i: nat, j: nat, original: Text,
                                 asks: seq<(nat, Text)>)
    requires Accepted(Templates(rules)) && VaultInv(rules, st) && i < |rules| && j < |rules|
    requires rules[i].name == rules[j].name && Mint(rules[i], st, original).1.Ok?
    requires forall x | 0 <= x < |asks| :: asks[x].0 < |rules|
    ensures var later := MintAll(rules, Mint(rules[i], st, original).0, asks);
            Mint(rules[j], later, original) == (later, Mint(rules[i], st, original).1)
  {
    hide TokenText, VaultInv, Accepted;
    var key, st1 := (rules[i].name, original), Mint(rules[i], st, original).0;
    MintKeepsInv(rules, st, i, original);
    VaultOverRuns(rules, st1, asks);
    assert MintAll(rules, st1, asks).valueToToken[key] == st1.valueToToken[key];
  }

  /** Every vault token is grammar-shaped and fits `max_token_len`. */
  lemma {:induction false} VaultTokensFit(e: Engine, st: VaultState)
    requires ValidEngine(e) && VaultInv(e.rules, st)
    ensures AllShaped(st.tokenToOriginal.Keys)
    ensures forall t | t in st.tokenToOriginal :: |t| <= e.maxTokenLen
  {
    hide VaultInv, ValidEngine, Shaped;
    forall t | t in st.tokenToOriginal ensures Shaped(t) && |t| <= e.maxTokenLen {
      VaultTokenFits(e, st, t);
    }
  }

  lemma {:induction false} VaultTokenFits(e: Engine, st: VaultState, t: Text)
    requires ValidEngine(e) && VaultInv(e.rules, st) && t in st.tokenToOriginal
    ensures Shaped(t) && |t| <= e.maxTokenLen
  {
    hide TokenText, MapsAgree, Shaped, ValidateTemplate;
    assert Minted(e.rules, st, t);
    var i: nat, n: nat :| MintedAs(e.rules, st, t, i, n);
    assert ValidateTemplate(Templates(e.rules)[i]);
    assert TokenRoom(e.rules[i].template) <= e.maxTokenLen;
    TokenFits(e.rules[i], n);
  }

  lemma {:induction false} TokenFits(rule: Rule, n: nat)
    requires ValidateTemplate(rule.template) && n <= MAX_SESSION_TOKENS
    ensures Shaped(TokenText(rule, n)) && |TokenText(rule, n)| <= TokenRoom(rule.template)
  {
    hide ReplaceSlot, Decimal, ValidateTemplate, Shaped;
    MintedShape(rule.template, n);
    ValidateTemplateExact(rule.template);
    TokenIsShaped(TemplatePrefix(rule.template), n);
    DecimalLength(n);
  }

  lemma {:induction false} EngineAccepted(e: Engine)
    requires ValidEngine(e)
    ensures Accepted(Templates(e.rules))
  {
  }

  // ----- the session -----

  /** `RedactionSession`: the vault's fields and the cached automaton, changed in place. */
  class RedactionSession {
    const engine: Engine
    var tokenToOriginal: map<Text, Text>
    var valueToToken: map<(string, Text), Text>
    var counters: map<string, nat>
    var version: nat
    /** The version the automaton was built at, and its patterns in build order. */
    var automaton: Option<(nat, seq<Text>)>

    ghost function State(): VaultState
      reads this
    {
      VaultState(tokenToOriginal, valueToToken, counters, version)
    }

    ghost predicate Valid()
      reads this
    {
      && ValidEngine(engine) && VaultInv(engine.rules, State())
      && (automaton.Some? ==>
            && automaton.value.0 <= version && automaton.value.1 != []
            && (automaton.value.0 == version ==> KeySet(automaton.value.1) == tokenToOriginal.Keys))
    }

    constructor (engine: Engine)
      requires ValidEngine(engine)
      ensures Valid() && this.engine == engine && State() == EMPTY_VAULT
    {
      this.engine := engine;
      tokenToOriginal, valueToToken, counters, version := map[], map[], map[], 0;
      automaton := None;
    }

    method TokenFor(i: nat, original: Text) returns (r: Result<Text>)
      requires Valid() && i < |engine.rules|
      modifies this
      ensures Valid() && Extends(old(State()), State())
      ensures (State(), r) == Mint(engine.rules[i], old(State()), original)
    {
      hide TokenText, VaultInv, ValidEngine, Extends;
      assert Accepted(Templates(engine.rules)) by { EngineAccepted(engine); }
      MintKeepsInv(engine.rules, State(), i, original);
      var rule := engine.rules[i];
      var key := (rule.name, original);
      if key in valueToToken {
        return Ok(valueToToken[key]);
      }
      if |tokenToOriginal| >= MAX_SESSION_TOKENS {
        return Err("session token cap reached");
      }
      var n := (if rule.name in counters then counters[rule.name] else 0) + 1;
      counters := counters[rule.name := n];
      var token := TokenText(rule, n);
      if token in tokenToOriginal && tokenToOriginal[token] != original {
        return Err("token already maps to a different original");
      }
      tokenToOriginal := tokenToOriginal[token := original];
      valueToToken := valueToToken[key := token];
      version := version + 1;
      return Ok(token);
    }

    /** The keys of the token map in an unspecified order, as a hash map yields them. */
    method ListTokens() returns (patterns: seq<Text>)
      ensures KeySet(patterns) == tokenToOriginal.Keys
    {
      patterns := [];
      var rest := tokenToOriginal.Keys;
      while rest != {}
        invariant rest <= tokenToOriginal.Keys
        invariant KeySet(patterns) == tokenToOriginal.Keys - rest
        decreases rest
      {
        var k :| k in rest;
        ghost var before := patterns;
        patterns := patterns + [k];
        assert KeySet(patterns) == KeySet(before) + {k};
        rest := rest - {k};
      }
    }

    /** `with_automaton`: the cached automaton when it is current, else a rebuilt one. */
    method Automaton() returns (r: Option<seq<Text>>)
      requires Valid()
      modifies this`automaton
      ensures Valid() && State() == old(State())
      ensures r.None? <==> tokenToOriginal == map[]
      ensures r.Some? ==> KeySet(r.value) == tokenToOriginal.Keys
    {
      hide VaultInv, ValidEngine;
      if automaton.Some? && automaton.value.0 == version {
        assert automaton.value.1[0] in KeySet(automaton.value.1);
        return Some(automaton.value.1);
      }
      var patterns := ListTokens();
      if patterns == [] {
        assert tokenToOriginal.Keys == {};
        return None;
      }
      assert patterns[0] in KeySet(patterns);
      automaton := Some((version, patterns));
      return Some(patterns);
    }

    /** `restore_text`. */
    method Restored(text: Text) returns (out: Text)
      requires Valid()
      modifies this`automaton
      ensures Valid() && State() == old(State())
      ensures AllShaped(tokenToOriginal.Keys) && out == Restore(tokenToOriginal, text)
    {
      VaultTokensFit(engine, State());
      var patterns := Automaton();
      if patterns.None? {
        RestoreNothing(tokenToOriginal, text);
        return text;
      }
      out := RestoreText(patterns.value, tokenToOriginal, text);
    }
  }
}
