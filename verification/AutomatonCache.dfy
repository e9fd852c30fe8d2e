/** The version-stamped automaton cache under concurrency (src/core/privacy.rs,
    `with_automaton` and the version bump of `token_for`): threads as program counters, one
    step per lock-protected access. */
module AutomatonCache {
  import opened Bytes

  /** Where a thread is inside `with_automaton`.  `seen` is the vault version at its call's start. */
  datatype Pc =
    | Outside
    | ReadVersion(seen: nat)                                        // first version read
    | UsingCached(seen: nat, used: set<Text>)                       // holds the read lock, runs `f`
    | WantsWrite(seen: nat)                                         // cache was stale
    | Writing(seen: nat)                                            // holds the write lock
    | Recheck(seen: nat, version: nat)                              // version read again
    | UsingOld(seen: nat, used: set<Text>)                          // another thread rebuilt it
    | Built(seen: nat, version: nat, used: set<Text>)               // snapshot taken, runs `f`

  /** `tokens` and `version` live under the vault mutex, `cached` under the read-write lock.
      `history[v]` is the token set at version `v`. */
  datatype State = State(
    tokens: set<Text>,
    version: nat,
    history: seq<set<Text>>,
    cached: Option<(nat, set<Text>)>,
    threads: map<nat, Pc>)

  predicate HoldsWrite(pc: Pc) { pc.Writing? || pc.Recheck? || pc.UsingOld? || pc.Built? }

  predicate HoldsRead(pc: Pc) { pc.UsingCached? }

  ghost predicate Init(s: State) {
    && s.tokens == {} && s.version == 0 && s.history == [{}] && s.cached.None?
    && forall t | t in s.threads :: s.threads[t].Outside?
  }

  datatype Step =
    | Mint(token: Text)
    | Enter(t: nat)
    | CheckCached(t: nat)
    | LeaveRead(t: nat)
    | TakeWrite(t: nat)
    | ReadAgain(t: nat)
    | Decide(t: nat)
    | LeaveOld(t: nat)
    | Store(t: nat)

  function Move(s: State, t: nat, pc: Pc): State { s.(threads := s.threads[t := pc]) }

  /** One atomic step; a mint may come between any two steps of any thread. */
  ghost predicate Next(s: State, step: Step, s': State) {
    match step
    case Mint(token) =>
      s' == s.(tokens := s.tokens + {token}, version := s.version + 1,
               history := s.history + [s.tokens + {token}])
    case Enter(t) =>
      t in s.threads && s.threads[t].Outside? && s' == Move(s, t, ReadVersion(s.version))
    case CheckCached(t) =>
      && t in s.threads && s.threads[t].ReadVersion?
      && (forall u | u in s.threads :: !HoldsWrite(s.threads[u]))
      && var seen := s.threads[t].seen;
         s' == Move(s, t, if s.cached.Some? && s.cached.value.0 == seen
                          then UsingCached(seen, s.cached.value.1) else WantsWrite(seen))
    case LeaveRead(t) =>
      t in s.threads && s.threads[t].UsingCached? && s' == Move(s, t, Outside)
    case TakeWrite(t) =>
      && t in s.threads && s.threads[t].WantsWrite?
      && (forall u | u in s.threads :: !HoldsWrite(s.threads[u]) && !HoldsRead(s.threads[u]))
      && s' == Move(s, t, Writing(s.threads[t].seen))
    case ReadAgain(t) =>
      t in s.threads && s.threads[t].Writing? && s' == Move(s, t, Recheck(s.threads[t].seen, s.version))
    case Decide(t) =>
      && t in s.threads && s.threads[t].Recheck?
      && var Recheck(seen, version) := s.threads[t];
         s' == Move(s, t, if s.cached.Some? && s.cached.value.0 == version
                          then UsingOld(seen, s.cached.value.1)
                          else if s.tokens == {} then Outside
                          else Built(seen, version, s.tokens))
    case LeaveOld(t) =>
      t in s.threads && s.threads[t].UsingOld? && s' == Move(s, t, Outside)
    case Store(t) =>
      && t in s.threads && s.threads[t].Built?
      && s' == Move(s, t, Outside).(cached := Some((s.threads[t].version, s.threads[t].used)))
  }

  // ----- the invariant -----

  ghost predicate HistoryOk(s: State) {
    && |s.history| == s.version + 1 && s.history[s.version] == s.tokens
    && forall v, w | 0 <= v <= w <= s.version :: s.history[v] <= s.history[w]
  }

  /** A pattern set stamped `version`: it has every token of that version and none the vault lacks. */
  ghost predicate Stamped(s: State, version: nat, patterns: set<Text>) {
    version < |s.history| && s.history[version] <= patterns <= s.tokens
  }

  ghost predicate ThreadOk(s: State, pc: Pc) {
    match pc
    case Outside => true
    case ReadVersion(seen) => seen <= s.version
    case UsingCached(seen, used) => Stamped(s, seen, used)
    case WantsWrite(seen) => seen <= s.version
    case Writing(seen) => seen <= s.version
    case Recheck(seen, version) => seen <= version <= s.version
    case UsingOld(seen, used) => Stamped(s, seen, used)
    case Built(seen, version, used) => seen <= version && Stamped(s, version, used)
  }

  ghost predicate Inv(s: State) {
    && HistoryOk(s)
    && (s.cached.Some? ==> Stamped(s, s.cached.value.0, s.cached.value.1))
    && (forall t | t in s.threads :: ThreadOk(s, s.threads[t]))
    && (forall t, u | t in s.threads && u in s.threads && HoldsWrite(s.threads[t]) && t != u ::
          !HoldsWrite(s.threads[u]) && !HoldsRead(s.threads[u]))
  }

  lemma {:induction false} InitInv(s: State)
    requires Init(s)
    ensures Inv(s)
  {
  }

  lemma {:induction false} StampedGrows(s: State, s': State, version: nat, patterns: set<Text>)
    requires HistoryOk(s) && HistoryOk(s') && s.history <= s'.history && s.tokens <= s'.tokens
    requires Stamped(s, version, patterns)
    ensures Stamped(s', version, patterns)
  {
  }

  lemma {:induction false} MintKeepsInv(s: State, token: Text, s': State)
    requires Inv(s) && Next(s, Mint(token), s')
    ensures Inv(s')
  {
    forall v, w | 0 <= v <= w <= s'.version ensures s'.history[v] <= s'.history[w] {
      if w == s'.version && v < w {
        assert s.history[v] <= s.history[s.version];
      }
    }
    if s.cached.Some? {
      StampedGrows(s, s', s.cached.value.0, s.cached.value.1);
    }
    forall t | t in s'.threads ensures ThreadOk(s', s'.threads[t]) {
      match s.threads[t] {
        case UsingCached(seen, used) => StampedGrows(s, s', seen, used);
        case UsingOld(seen, used) => StampedGrows(s, s', seen, used);
        case Built(seen, version, used) => StampedGrows(s, s', version, used);
        case _ =>
      }
    }
  }

  /** A thread's step leaves the vault alone; what it publishes is well stamped. */
  lemma {:induction false} ThreadStepOk(s: State, step: Step, s': State)
    requires Inv(s) && Next(s, step, s') && !step.Mint?
    ensures s'.history == s.history && s'.tokens == s.tokens && s'.version == s.version
    ensures s'.cached.Some? ==> Stamped(s', s'.cached.value.0, s'.cached.value.1)
    ensures s'.threads == s.threads[step.t := s'.threads[step.t]] && ThreadOk(s', s'.threads[step.t])
    ensures forall t | t in s.threads :: ThreadOk(s', s.threads[t])
  {
    assert ThreadOk(s, s.threads[step.t]);
  }

  /** Moving one thread keeps the write lock exclusive. */
  lemma {:induction false} MoveKeepsThreads(s: State, step: Step, s': State)
    requires Inv(s) && Next(s, step, s') && !step.Mint?
    ensures forall t, u | t in s'.threads && u in s'.threads && HoldsWrite(s'.threads[t]) && t != u ::
              !HoldsWrite(s'.threads[u]) && !HoldsRead(s'.threads[u])
  {
    hide Stamped, HistoryOk, ThreadOk;
  }

  lemma {:induction false} NextKeepsInv(s: State, step: Step, s': State)
    requires Inv(s) && Next(s, step, s')
    ensures Inv(s')
  {
    if step.Mint? {
      MintKeepsInv(s, step.token, s');
    } else {
      MoveKeepsThreads(s, step, s');
      ThreadStepOk(s, step, s');
    }
  }

  // ----- whole runs -----

  /** A run: states with a step between each and the next. */
  ghost predicate Run(states: seq<State>, steps: seq<Step>) {
    && |states| == |steps| + 1 && Init(states[0])
    && forall i | 0 <= i < |steps| :: Next(states[i], steps[i], states[i + 1])
  }

  lemma {:induction false} RunKeepsInv(states: seq<State>, steps: seq<Step>, n: nat)
    requires Run(states, steps) && n < |states|
    ensures Inv(states[n])
  {
    if n == 0 {
      InitInv(states[0]);
    } else {
      RunKeepsInv(states, steps, n - 1);
      NextKeepsInv(states[n - 1], steps[n - 1], states[n]);
    }
  }

  /** The pattern set a thread is running `f` against, if it is. */
  function InUse(pc: Pc): Option<set<Text>> {
    match pc
    case UsingCached(_, used) => Some(used)
    case UsingOld(_, used) => Some(used)
    case Built(_, _, used) => Some(used)
    case _ => None
  }

  /** Cache coherence over every interleaving: whenever the cached version is the vault's, the
      cached patterns are exactly the vault's tokens; and the patterns a thread is using always
      cover every token the vault held when its call began and hold nothing the vault lacks. */
  lemma {:induction false} CacheIsCoherent(states: seq<State>, steps: seq<Step>, n: nat)
    requires Run(states, steps) && n < |states|
    ensures var s := states[n];
            && (s.cached.Some? && s.cached.value.0 == s.version ==> s.cached.value.1 == s.tokens)
            && |s.history| == s.version + 1
            && (forall t | t in s.threads && InUse(s.threads[t]).Some? ::
                  && s.threads[t].seen <= s.version
                  && s.history[s.threads[t].seen] <= InUse(s.threads[t]).value <= s.tokens)
  {
    RunKeepsInv(states, steps, n);
    var s := states[n];
    forall t | t in s.threads && InUse(s.threads[t]).Some?
      ensures s.threads[t].seen <= s.version
      ensures s.history[s.threads[t].seen] <= InUse(s.threads[t]).value <= s.tokens
    {
      assert ThreadOk(s, s.threads[t]);
    }
  }
}
