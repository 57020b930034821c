/** Whole runs of CheckIP (internal/antivpn/engine.go): one leader per address, one
    result per call, at most one provider query per address up to the first stored
    expiry, and when a later stored entry spares all queries up to its own. */
module FlightWindow {
  import opened Flight

  // ----- counting queries -----------------------------------------------------------

  function Asked(queries: seq<Query>, key: string): nat {
    if queries == [] then 0
    else Asked(queries[..|queries| - 1], key) + if queries[|queries| - 1].key == key then 1 else 0
  }

  /** Queries for the key issued at or before an instant. */
  function AskedBy(queries: seq<Query>, key: string, limit: int): nat {
    if queries == [] then 0
    else
      var last := queries[|queries| - 1];
      AskedBy(queries[..|queries| - 1], key, limit) + if last.key == key && last.at <= limit then 1 else 0
  }

  lemma {:induction false} AskedByIsPart(queries: seq<Query>, key: string, limit: int)
    ensures AskedBy(queries, key, limit) <= Asked(queries, key)
  {
    if queries == [] {
    } else {
      AskedByIsPart(queries[..|queries| - 1], key, limit);
    }
  }

  lemma AskedSnoc(queries: seq<Query>, q: Query, key: string, limit: int)
    ensures Asked(queries + [q], key) == Asked(queries, key) + if q.key == key then 1 else 0
    ensures AskedBy(queries + [q], key, limit) ==
            AskedBy(queries, key, limit) + if q.key == key && q.at <= limit then 1 else 0
  {
    assert (queries + [q])[..|queries + [q]| - 1] == queries;
  }

  // ----- the first window --------------------------------------------------------------

  /** Samples lie in the past. */
  ghost predicate SampledBefore(s: State) {
    && (forall p :: At(s, p).Probing? ==> At(s, p).at <= s.now)
    && (forall p :: At(s, p).Leading? && At(s, p).phase.Reprobing? ==> At(s, p).phase.at <= s.now)
  }

  predicate BeforeQuery(phase: Phase) {
    phase.Entered? || phase.Reprobing? || phase.Repurging? || phase.Asking?
  }

  predicate Working(phase: Phase) {
    phase.Repurging? || phase.Asking? || phase.Querying? || phase.Storing?
  }

  /** Before anything is stored for the key: nothing is cached, and a leader that has
      not asked yet, or no call at all, means that nobody has asked. */
  ghost predicate Unstored(s: State, key: string) {
    && key !in s.cache
    && Asked(s.queries, key) <= 1
    && (key !in s.calls ==> Asked(s.queries, key) == 0)
    && (forall p :: At(s, p).Purging? ==> At(s, p).key != key)
    && (forall p :: At(s, p).Leading? && At(s, p).key == key ==>
          && !At(s, p).phase.Repurging? && !At(s, p).phase.Finishing? && !At(s, p).phase.Leaving?
          && (BeforeQuery(At(s, p).phase) ==> Asked(s.queries, key) == 0))
  }

  /** Until the first stored expiry the entry stays, and nobody works on a new one. */
  ghost predicate Covered(s: State, key: string) {
    && key in s.cache && s.cache[key].expires >= s.now
    && (forall p :: At(s, p).Purging? ==> At(s, p).key != key)
    && (forall p :: At(s, p).Leading? && At(s, p).key == key ==> !Working(At(s, p).phase))
  }

  /** Up to the limit the key is covered by an entry that expires then. */
  ghost predicate Guarded(s: State, key: string, limit: int) {
    s.now <= limit ==> Covered(s, key) && s.cache[key].expires == limit
  }

  ghost predicate Window(s: State, key: string) {
    if key !in s.firstExpiry then Unstored(s, key)
    else AskedBy(s.queries, key, s.firstExpiry[key]) <= 1 && Guarded(s, key, s.firstExpiry[key])
  }

  // ----- a covered key stays covered ------------------------------------------------------

  /** A step that leaves the cache alone, unless it starts to work on the key or to
      delete an entry that has not expired. */
  lemma CoveredByMove(s: State, s': State, p: Pid, key: string)
    requires Covered(s, key) && OnlyMoves(s, s', p) && s'.cache == s.cache && s'.now == s.now
    requires At(s', p) == Purging(key) ==> s.cache[key].expires < s.now
    requires At(s', p).Leading? && At(s', p).key == key ==> !Working(At(s', p).phase)
    ensures Covered(s', key)
  {
  }

  lemma CoveredByGet(s: State, p: Pid, key: string, verdict: nat)
    requires Covered(s, key) && SampledBefore(s) && (At(s, p).Probing? || At(s, p).Purging?)
    ensures Covered(Act(s, p, verdict), key) && Act(s, p, verdict).cache[key] == s.cache[key]
  {
    match At(s, p) {
      case Probing(target, at) =>
        assert at <= s.now;
        CoveredByMove(s, Probe(s, p, target, at), p, key);
      case Purging(target) =>
        assert target != key && OnlyMoves(s, Purge(s, p, target), p);
    }
  }

  lemma CoveredByGroup(s: State, p: Pid, key: string, verdict: nat)
    requires Covered(s, key) && (At(s, p).Joining? || At(s, p).Following?)
    ensures Covered(Act(s, p, verdict), key) && Act(s, p, verdict).cache == s.cache
  {
    match At(s, p) {
      case Joining(target) => CoveredByMove(s, Join(s, p, target), p, key);
      case Following(target, call) => CoveredByMove(s, Follow(s, p, target, call), p, key);
    }
  }

  lemma CoveredByLead(s: State, p: Pid, target: string, call: CallId, phase: Phase, verdict: nat, key: string)
    requires Covered(s, key) && SampledBefore(s) && At(s, p) == Leading(target, call, phase)
    ensures var s' := Lead(s, p, target, call, phase, verdict); Covered(s', key) && s'.cache[key] == s.cache[key]
  {
    LeadMovesOne(s, p, target, call, phase, verdict);
    assert target == key ==> !Working(phase);
  }

  /** An entry that nobody is about to delete, and nobody works on, stays until it
      expires. */
  lemma CoveredKept(s: State, a: Action, key: string)
    requires SampledBefore(s) && Covered(s, key)
    ensures Next(s, a).now <= s.cache[key].expires ==> Covered(Next(s, a), key) && Next(s, a).cache[key] == s.cache[key]
  {
    if a.Tick? {
      assert forall p: Pid :: At(Next(s, a), p) == At(s, p);
    } else if a.CheckIP? {
      CoveredByMove(s, Next(s, a), a.p, key);
    } else {
      match At(s, a.p) {
        case Probing(_, _) => CoveredByGet(s, a.p, key, a.verdict);
        case Purging(_) => CoveredByGet(s, a.p, key, a.verdict);
        case Joining(_) => CoveredByGroup(s, a.p, key, a.verdict);
        case Following(_, _) => CoveredByGroup(s, a.p, key, a.verdict);
        case Leading(target, call, phase) => CoveredByLead(s, a.p, target, call, phase, a.verdict, key);
        case Idle =>
      }
    }
  }

  /** What only leaders write. */
  ghost predicate SameHistory(s: State, s': State) {
    s'.queries == s.queries && s'.firstExpiry == s.firstExpiry && s'.now == s.now
  }

  lemma OthersWriteNoHistory(s: State, p: Pid, verdict: nat)
    requires !At(s, p).Leading?
    ensures SameHistory(s, Act(s, p, verdict))
  {
    match At(s, p) {
      case Idle =>
      case Probing(key, at) => assert SameHistory(s, Probe(s, p, key, at));
      case Purging(key) => assert SameHistory(s, Purge(s, p, key));
      case Joining(key) => assert SameHistory(s, Join(s, p, key));
      case Following(key, call) => assert SameHistory(s, Follow(s, p, key, call));
    }
  }

  lemma LeadersWriteHistory(s: State, p: Pid, key: string, call: CallId, phase: Phase, verdict: nat)
    ensures var s' := Lead(s, p, key, call, phase, verdict);
            && s'.now == s.now
            && s'.queries == (if phase.Asking? then s.queries + [Query(key, call, s.now)] else s.queries)
            && (!phase.Storing? ==> s'.firstExpiry == s.firstExpiry)
            && (forall k :: k in s.firstExpiry ==> k in s'.firstExpiry && s'.firstExpiry[k] == s.firstExpiry[k])
  {
  }

  /** Only a leader that is asking adds a query, for its key and at the present. */
  lemma QueriesGrow(s: State, a: Action)
    ensures Next(s, a).now >= s.now
    ensures || Next(s, a).queries == s.queries
            || (a.Proceed? && At(s, a.p).Leading? && At(s, a.p).phase.Asking?
                && Next(s, a).queries == s.queries + [Query(At(s, a.p).key, At(s, a.p).call, s.now)])
  {
    if a.Proceed? {
      if At(s, a.p).Leading? {
        LeadersWriteHistory(s, a.p, At(s, a.p).key, At(s, a.p).call, At(s, a.p).phase, a.verdict);
      } else {
        OthersWriteNoHistory(s, a.p, a.verdict);
      }
    }
  }

  /** Guarding lasts, and while it does, and after the limit, no query by the limit is
      added. */
  lemma GuardKept(s: State, a: Action, key: string, limit: int)
    requires SampledBefore(s) && Guarded(s, key, limit)
    ensures Guarded(Next(s, a), key, limit)
    ensures AskedBy(Next(s, a).queries, key, limit) == AskedBy(s.queries, key, limit)
  {
    QueriesGrow(s, a);
    if a.Proceed? && At(s, a.p).Leading? && At(s, a.p).phase.Asking? {
      AskedSnoc(s.queries, Query(At(s, a.p).key, At(s, a.p).call, s.now), key, limit);
    }
    if s.now <= limit {
      CoveredKept(s, a, key);
    }
  }

  // ----- nothing stored yet -------------------------------------------------------------

  lemma UnstoredByTick(s: State, dt: nat, key: string)
    requires Unstored(s, key)
    ensures Unstored(Next(s, Tick(dt)), key)
  {
    assert forall p: Pid :: At(Next(s, Tick(dt)), p) == At(s, p);
  }

  /** A caller outside the group, which finds nothing to delete. */
  lemma UnstoredByMove(s: State, s': State, p: Pid, key: string)
    requires Unstored(s, key) && OnlyMoves(s, s', p) && !At(s', p).Leading? && At(s', p) != Purging(key)
    requires key in s'.cache ==> key in s.cache
    requires s'.calls == s.calls && s'.queries == s.queries
    ensures Unstored(s', key)
  {
  }

  /** A lookup deletes nothing for a key that is not cached. */
  lemma ProbeMoves(s: State, p: Pid, target: string, at: int, key: string)
    requires key !in s.cache
    ensures var s' := Probe(s, p, target, at);
            && OnlyMoves(s, s', p) && !At(s', p).Leading? && At(s', p) != Purging(key)
            && s'.cache == s.cache && s'.calls == s.calls && s'.queries == s.queries
  {
  }

  lemma UnstoredByGet(s: State, p: Pid, key: string, verdict: nat)
    requires Unstored(s, key) && (At(s, p).Probing? || At(s, p).Purging? || At(s, p).Following?)
    ensures Unstored(Act(s, p, verdict), key)
  {
    match At(s, p) {
      case Probing(target, at) =>
        ProbeMoves(s, p, target, at, key);
        UnstoredByMove(s, Probe(s, p, target, at), p, key);
      case Purging(target) => UnstoredByMove(s, Purge(s, p, target), p, key);
      case Following(target, call) => UnstoredByMove(s, Follow(s, p, target, call), p, key);
    }
  }

  lemma UnstoredByJoin(s: State, p: Pid, target: string, key: string)
    requires Unstored(s, key) && At(s, p) == Joining(target)
    ensures Unstored(Join(s, p, target), key)
  {
    assert OnlyMoves(s, Join(s, p, target), p);
  }

  lemma UnstoredByLeave(s: State, p: Pid, target: string, call: CallId, d: Decision, key: string)
    requires Unstored(s, key) && At(s, p) == Leading(target, call, Leaving(d))
    ensures Unstored(Leave(s, p, target, call, d), key)
  {
    assert OnlyMoves(s, Leave(s, p, target, call, d), p);
  }

  lemma UnstoredByAsk(s: State, p: Pid, target: string, call: CallId, verdict: nat, key: string)
    requires Unstored(s, key) && OneLeaderPerKey(s) && At(s, p) == Leading(target, call, Asking)
    ensures Unstored(Lead(s, p, target, call, Asking, verdict), key)
  {
    var s' := Lead(s, p, target, call, Asking, verdict);
    LeadMovesOne(s, p, target, call, Asking, verdict);
    AskedSnoc(s.queries, Query(target, call, s.now), key, 0);
    assert At(s', p) == Leading(target, call, Querying) && s'.calls == s.calls && s'.cache == s.cache;
    if target == key {
      assert key in s.calls && Asked(s.queries, key) == 0;
      assert forall q: Pid :: At(s', q).Leading? && At(s', q).key == key ==> q == p;
    }
  }

  /** The first store opens the window. */
  lemma WindowByStore(s: State, p: Pid, target: string, call: CallId, d: Decision, verdict: nat, key: string)
    requires Unstored(s, key) && key !in s.firstExpiry
    requires OneLeaderPerKey(s) && At(s, p) == Leading(target, call, Storing(d))
    ensures Window(Lead(s, p, target, call, Storing(d), verdict), key)
  {
    LeadMovesOne(s, p, target, call, Storing(d), verdict);
    AskedByIsPart(s.queries, key, d.expires);
  }

  lemma UnstoredByLead(s: State, p: Pid, target: string, call: CallId, phase: Phase, verdict: nat, key: string)
    requires Unstored(s, key) && At(s, p) == Leading(target, call, phase)
    requires !phase.Asking? && !phase.Storing? && !phase.Leaving?
    ensures Unstored(Lead(s, p, target, call, phase, verdict), key)
  {
    LeadMovesOne(s, p, target, call, phase, verdict);
  }

  /** Only a store touches the first expiries. */
  lemma FirstExpiryStays(s: State, a: Action, key: string)
    ensures key in s.firstExpiry ==> key in Next(s, a).firstExpiry && Next(s, a).firstExpiry[key] == s.firstExpiry[key]
    ensures !(a.Proceed? && At(s, a.p).Leading? && At(s, a.p).phase.Storing?) ==>
              Next(s, a).firstExpiry == s.firstExpiry
  {
    if a.Proceed? {
      if At(s, a.p).Leading? {
        LeadersWriteHistory(s, a.p, At(s, a.p).key, At(s, a.p).call, At(s, a.p).phase, a.verdict);
      } else {
        OthersWriteNoHistory(s, a.p, a.verdict);
      }
    }
  }

  lemma UnstoredByLeader(s: State, p: Pid, target: string, call: CallId, phase: Phase, verdict: nat, key: string)
    requires OneLeaderPerKey(s) && Unstored(s, key) && key !in s.firstExpiry && At(s, p) == Leading(target, call, phase)
    ensures Window(Lead(s, p, target, call, phase, verdict), key)
  {
    LeadersWriteHistory(s, p, target, call, phase, verdict);
    match phase {
      case Leaving(d) => UnstoredByLeave(s, p, target, call, d, key);
      case Asking => UnstoredByAsk(s, p, target, call, verdict, key);
      case Storing(d) => WindowByStore(s, p, target, call, d, verdict, key);
      case _ => UnstoredByLead(s, p, target, call, phase, verdict, key);
    }
  }

  lemma UnstoredByOthers(s: State, p: Pid, verdict: nat, key: string)
    requires Unstored(s, key) && !At(s, p).Leading?
    ensures Unstored(Act(s, p, verdict), key)
  {
    match At(s, p) {
      case Idle =>
      case Joining(target) => UnstoredByJoin(s, p, target, key);
      case _ => UnstoredByGet(s, p, key, verdict);
    }
  }

  lemma WindowOpens(s: State, a: Action, key: string)
    requires OneLeaderPerKey(s) && Unstored(s, key) && key !in s.firstExpiry
    ensures Window(Next(s, a), key)
  {
    match a {
      case Tick(dt) => UnstoredByTick(s, dt, key);
      case CheckIP(p, target) =>
        if At(s, p).Idle? {
          UnstoredByMove(s, Go(s, p, Probing(target, s.now)), p, key);
        }
      case Proceed(p, verdict) =>
        if At(s, p).Leading? {
          UnstoredByLeader(s, p, At(s, p).key, At(s, p).call, At(s, p).phase, verdict, key);
        } else {
          UnstoredByOthers(s, p, verdict, key);
          OthersWriteNoHistory(s, p, verdict);
        }
    }
  }

  lemma WindowKept(s: State, a: Action, key: string)
    requires OneLeaderPerKey(s) && SampledBefore(s) && Window(s, key)
    ensures Window(Next(s, a), key)
  {
    if key in s.firstExpiry {
      FirstExpiryStays(s, a, key);
      GuardKept(s, a, key, s.firstExpiry[key]);
    } else {
      WindowOpens(s, a, key);
    }
  }

  // ----- samples lie in the past ------------------------------------------------------------

  lemma SamplesKeptByMove(s: State, s': State, p: Pid)
    requires SampledBefore(s) && OnlyMoves(s, s', p) && s'.now == s.now
    requires At(s', p).Probing? ==> At(s', p).at <= s'.now
    requires At(s', p).Leading? && At(s', p).phase.Reprobing? ==> At(s', p).phase.at <= s'.now
    ensures SampledBefore(s')
  {
  }

  lemma SamplesKeptByLead(s: State, p: Pid, key: string, call: CallId, phase: Phase, verdict: nat)
    requires SampledBefore(s)
    ensures SampledBefore(Lead(s, p, key, call, phase, verdict))
  {
    LeadMovesOne(s, p, key, call, phase, verdict);
    SamplesKeptByMove(s, Lead(s, p, key, call, phase, verdict), p);
  }

  lemma SamplesKeptByGet(s: State, p: Pid, verdict: nat)
    requires SampledBefore(s) && (At(s, p).Probing? || At(s, p).Purging? || At(s, p).Idle?)
    ensures SampledBefore(Act(s, p, verdict))
  {
    match At(s, p) {
      case Probing(key, at) => SamplesKeptByMove(s, Probe(s, p, key, at), p);
      case Purging(key) => SamplesKeptByMove(s, Purge(s, p, key), p);
      case Idle =>
    }
  }

  lemma SamplesKeptByGroup(s: State, p: Pid, verdict: nat)
    requires SampledBefore(s) && (At(s, p).Joining? || At(s, p).Following?)
    ensures SampledBefore(Act(s, p, verdict))
  {
    match At(s, p) {
      case Joining(key) => SamplesKeptByMove(s, Join(s, p, key), p);
      case Following(key, call) => SamplesKeptByMove(s, Follow(s, p, key, call), p);
    }
  }

  lemma SamplesKept(s: State, a: Action)
    requires SampledBefore(s)
    ensures SampledBefore(Next(s, a))
  {
    if a.Tick? {
      assert OnlyMoves(s, Next(s, a), 0) && At(Next(s, a), 0) == At(s, 0);
    } else if a.CheckIP? {
      assert OnlyMoves(s, Next(s, a), a.p);
      SamplesKeptByMove(s, Next(s, a), a.p);
    } else if At(s, a.p).Leading? {
      SamplesKeptByLead(s, a.p, At(s, a.p).key, At(s, a.p).call, At(s, a.p).phase, a.verdict);
    } else if At(s, a.p).Joining? || At(s, a.p).Following? {
      SamplesKeptByGroup(s, a.p, a.verdict);
    } else {
      SamplesKeptByGet(s, a.p, a.verdict);
    }
  }

  // ----- whole runs ------------------------------------------------------------------------

  ghost predicate Inv(s: State) {
    && OneLeaderPerKey(s) && OneResultPerCall(s) && OneKeyPerCall(s) && NobodyWaitsInVain(s) && SampledBefore(s)
    && forall key :: Window(s, key)
  }

  lemma InvKept(s: State, a: Action)
    requires Inv(s)
    ensures Inv(Next(s, a))
  {
    LeadersKept(s, a);
    ResultsKept(s, a);
    KeysKept(s, a);
    WaitKept(s, a);
    SamplesKept(s, a);
    forall key
      ensures Window(Next(s, a), key)
    {
      WindowKept(s, a, key);
    }
  }

  lemma {:induction false} InvAlways(s: State, actions: seq<Action>)
    requires Inv(s)
    ensures Inv(Run(s, actions))
    decreases |actions|
  {
    if actions == [] {
    } else {
      InvKept(s, actions[0]);
      InvAlways(Next(s, actions[0]), actions[1..]);
    }
  }

  lemma ColdIsInv(ttl: nat, now: int)
    ensures Inv(Cold(ttl, now))
  {
    assert forall p :: At(Cold(ttl, now), p) == Idle;
  }

  /** Over every interleaving from a cold cache, at most one query is issued per
      address up to the first expiry stored for it, and at most one before anything is
      stored. */
  lemma OneQueryInTheFirstWindow(ttl: nat, now: int, actions: seq<Action>, key: string)
    ensures var s := Run(Cold(ttl, now), actions);
            if key in s.firstExpiry then AskedBy(s.queries, key, s.firstExpiry[key]) <= 1
            else Asked(s.queries, key) <= 1
  {
    ColdIsInv(ttl, now);
    InvAlways(Cold(ttl, now), actions);
    assert Window(Run(Cold(ttl, now), actions), key);
  }

  /** Over every interleaving, at most one leader runs per address, its call is the one
      in the table, and all who return from a call asked for the same address and
      return the same decision. */
  lemma CallsAreShared(ttl: nat, now: int, actions: seq<Action>)
    ensures var s := Run(Cold(ttl, now), actions);
            && OneLeaderPerKey(s) && NobodyWaitsInVain(s)
            && (forall r, t :: r in s.answers && t in s.answers && r.Shared? && t.Shared? && r.call == t.call ==>
                  r.key == t.key && r.decision == t.decision)
  {
    ColdIsInv(ttl, now);
    InvAlways(Cold(ttl, now), actions);
  }

  // ----- later windows ----------------------------------------------------------------------

  function Repeat(a: Action, n: nat): seq<Action> {
    if n == 0 then [] else [a] + Repeat(a, n - 1)
  }

  lemma RepeatStep(s: State, a: Action, n: nat)
    requires n > 0
    ensures Run(s, Repeat(a, n)) == Run(Next(s, a), Repeat(a, n - 1))
  {
  }

  lemma {:induction false} RunAppend(s: State, a: seq<Action>, b: seq<Action>)
    ensures Run(s, a + b) == Run(Run(s, a), b)
    decreases |a|
  {
    if a == [] {
      assert a + b == b;
    } else {
      assert (a + b)[1..] == a[1..] + b;
      RunAppend(Next(s, a[0]), a[1..], b);
    }
  }

  /** After one caller has asked, stored and returned alone. */
  ghost predicate Served(s: State, s': State, p: Pid, key: string, verdict: nat) {
    && OnlyMoves(s, s', p) && At(s', p) == Idle
    && s'.now == s.now && s'.ttl == s.ttl && s'.calls == s.calls
    && s'.cache == s.cache[key := Decision(verdict, s.now + s.ttl)]
    && s'.queries == s.queries + [Query(key, s.nextCall, s.now)]
    && s'.answers == s.answers + [Shared(p, key, s.nextCall, true, Decision(verdict, s.now + s.ttl))]
    && s'.nextCall == s.nextCall + 1
  }

  /** One step of a leader that is not leaving. */
  lemma LeadStep(s: State, p: Pid, key: string, call: CallId, phase: Phase, verdict: nat)
    requires At(s, p) == Leading(key, call, phase) && !phase.Leaving?
    ensures Next(s, Proceed(p, verdict)) ==
            Go(PhaseEffect(s, key, call, phase), p, Leading(key, call, NextPhase(s, key, phase, verdict)))
  {
  }

  /** A leader that finds nothing cached asks. */
  lemma EnteredToQuery(s: State, p: Pid, key: string, call: CallId, verdict: nat)
    requires At(s, p) == Leading(key, call, Entered) && key !in s.cache
    ensures Run(s, Repeat(Proceed(p, verdict), 3)) ==
            Go(s.(queries := s.queries + [Query(key, call, s.now)]), p, Leading(key, call, Querying))
  {
    var a := Proceed(p, verdict);
    LeadStep(s, p, key, call, Entered, verdict);
    var s1 := Next(s, a);
    LeadStep(s1, p, key, call, Reprobing(s.now), verdict);
    var s2 := Next(s1, a);
    LeadStep(s2, p, key, call, Asking, verdict);
    RepeatStep(s, a, 3);
    RepeatStep(s1, a, 2);
    RepeatStep(s2, a, 1);
    var pcs: map<Pid, Pc> := s.pcs[p := Leading(key, call, Reprobing(s.now))];
    assert pcs[p := Leading(key, call, Asking)][p := Leading(key, call, Querying)]
           == s.pcs[p := Leading(key, call, Querying)];
  }

  /** From the join to the query, with nothing cached. */
  lemma JoinToQuery(s: State, p: Pid, key: string, verdict: nat)
    requires At(s, p) == Joining(key) && key !in s.calls && key !in s.cache
    ensures Run(s, Repeat(Proceed(p, verdict), 4)) ==
            Go(Register(s, key).(queries := s.queries + [Query(key, s.nextCall, s.now)]), p,
               Leading(key, s.nextCall, Querying))
  {
    var a := Proceed(p, verdict);
    var s1 := Go(Register(s, key), p, Leading(key, s.nextCall, Entered));
    assert Next(s, a) == s1;
    EnteredToQuery(s1, p, key, s.nextCall, verdict);
    RepeatStep(s, a, 4);
    assert s1.pcs[p := Leading(key, s.nextCall, Querying)] == s.pcs[p := Leading(key, s.nextCall, Querying)];
  }

  /** From the query to the return. */
  lemma QueryToReturn(s: State, p: Pid, key: string, call: CallId, verdict: nat)
    requires At(s, p) == Leading(key, call, Querying)
    ensures var s' := Run(s, Repeat(Proceed(p, verdict), 4));
            && OnlyMoves(s, s', p) && At(s', p) == Idle
            && s'.now == s.now && s'.ttl == s.ttl && s'.calls == s.calls - {key}
            && s'.cache == s.cache[key := Decision(verdict, s.now + s.ttl)]
            && s'.queries == s.queries && s'.nextCall == s.nextCall
            && s'.answers == s.answers + [Shared(p, key, call, true, Decision(verdict, s.now + s.ttl))]
  {
    var a, d := Proceed(p, verdict), Decision(verdict, s.now + s.ttl);
    LeadStep(s, p, key, call, Querying, verdict);
    var s1 := Next(s, a);
    LeadStep(s1, p, key, call, Storing(d), verdict);
    var s2 := Next(s1, a);
    LeadStep(s2, p, key, call, Finishing(d), verdict);
    var s3 := Next(s2, a);
    assert At(s3, p) == Leading(key, call, Leaving(d));
    var s4 := Next(s3, a);
    assert s4 == Leave(s3, p, key, call, d);
    RepeatStep(s, a, 4);
    RepeatStep(s1, a, 3);
    RepeatStep(s2, a, 2);
    RepeatStep(s3, a, 1);
    assert OnlyMoves(s, s4, p);
  }

  /** A caller about to join, with no call running and nothing cached, asks the
      providers and is done in eight steps. */
  lemma AloneItAsks(s: State, p: Pid, key: string, verdict: nat)
    requires At(s, p) == Joining(key) && key !in s.calls && key !in s.cache
    ensures Served(s, Run(s, Eight(p, verdict)), p, key, verdict)
  {
    var a := Proceed(p, verdict);
    JoinToQuery(s, p, key, verdict);
    var mid := Run(s, Repeat(a, 4));
    assert mid.calls == s.calls[key := s.nextCall] && mid.cache == s.cache && mid.now == s.now && mid.ttl == s.ttl;
    assert At(mid, p) == Leading(key, s.nextCall, Querying) && OnlyMoves(s, mid, p);
    assert mid.answers == s.answers && mid.nextCall == s.nextCall + 1;
    QueryToReturn(mid, p, key, s.nextCall, verdict);
    RunAppend(s, Repeat(a, 4), Repeat(a, 4));
    ServedByHalves(s, mid, Run(mid, Repeat(a, 4)), p, key, verdict);
  }

  lemma ServedByHalves(s: State, mid: State, s': State, p: Pid, key: string, verdict: nat)
    requires key !in s.calls && mid.calls == s.calls[key := s.nextCall] && s'.calls == mid.calls - {key}
    requires OnlyMoves(s, mid, p) && OnlyMoves(mid, s', p) && At(s', p) == Idle
    requires mid.now == s.now == s'.now && mid.ttl == s.ttl == s'.ttl && mid.cache == s.cache
    requires s'.cache == s.cache[key := Decision(verdict, s.now + s.ttl)]
    requires mid.queries == s.queries + [Query(key, s.nextCall, s.now)] == s'.queries
    requires s'.answers == s.answers + [Shared(p, key, s.nextCall, true, Decision(verdict, s.now + s.ttl))]
    requires s'.nextCall == s.nextCall + 1
    ensures Served(s, s', p, key, verdict)
  {
    assert s'.calls == s.calls;
  }

  function Eight(p: Pid, verdict: nat): seq<Action> {
    Repeat(Proceed(p, verdict), 4) + Repeat(Proceed(p, verdict), 4)
  }

  /** A first caller has been served; everybody is idle. */
  ghost predicate ServedOnce(s: State, key: string) {
    && s.ttl == 10 && s.now == 0 && s.calls == map[] && s.nextCall == 1 && s.queries == [Query(key, 0, 0)]
    && key in s.cache && s.cache[key].expires == 10
    && forall p :: At(s, p) == Idle
  }

  function FirstRound(key: string): seq<Action> { [CheckIP(0, key), Proceed(0, 0)] + Eight(0, 0) }

  lemma FirstIsServed(key: string)
    ensures ServedOnce(Run(Cold(10, 0), FirstRound(key)), key)
  {
    var s0 := Cold(10, 0);
    assert forall p :: At(s0, p) == Idle;
    RunTwo(s0, CheckIP(0, key), Proceed(0, 0));
    var s1 := Run(s0, [CheckIP(0, key), Proceed(0, 0)]);
    assert At(s1, 0) == Joining(key) && OnlyMoves(s0, s1, 0);
    AloneItAsks(s1, 0, key, 0);
    RunAppend(s0, [CheckIP(0, key), Proceed(0, 0)], Eight(0, 0));
  }

  /** After the expiry two callers have seen the old entry: one is about to delete it,
      the other has done so and joins. */
  ghost predicate BothSawIt(s: State, key: string) {
    && s.ttl == 10 && s.now == 11 && s.calls == map[] && s.nextCall == 1 && s.queries == [Query(key, 0, 0)]
    && key !in s.cache && At(s, 1) == Purging(key) && At(s, 2) == Joining(key)
  }

  /** A caller that comes after the expiry sees the entry and is about to delete it. */
  lemma LateCallerPurges(s: State, p: Pid, key: string)
    requires At(s, p).Idle? && key in s.cache && s.cache[key].expires < s.now
    ensures Run(s, [CheckIP(p, key), Proceed(p, 0)]) == Go(Go(s, p, Probing(key, s.now)), p, Purging(key))
  {
    var s1 := Next(s, CheckIP(p, key));
    assert At(s1, p) == Probing(key, s.now);
    assert Next(s1, Proceed(p, 0)) == Probe(s1, p, key, s.now);
    RunTwo(s, CheckIP(p, key), Proceed(p, 0));
  }

  lemma BothSeeIt(s: State, key: string) returns (acts: seq<Action>)
    requires ServedOnce(s, key)
    ensures BothSawIt(Run(s, acts), key)
  {
    var one, two := [CheckIP(1, key), Proceed(1, 0)], [CheckIP(2, key), Proceed(2, 0)];
    var s0 := Next(s, Tick(11));
    assert At(s0, 1) == At(s, 1) && At(s0, 2) == At(s, 2);
    LateCallerPurges(s0, 1, key);
    var s1 := Run(s0, one);
    LateCallerPurges(s1, 2, key);
    var s2 := Run(s1, two);
    RunAppend(s0, one, two);
    RunAppend(s0, one + two, [Proceed(2, 0)]);
    acts := [Tick(11)] + (one + two + [Proceed(2, 0)]);
    assert acts[1..] == one + two + [Proceed(2, 0)];
    assert [Proceed(2, 0)][1..] == [];
    assert Run(s2, [Proceed(2, 0)]) == Purge(s2, 2, key);
  }

  lemma BothAsk(s: State, key: string) returns (acts: seq<Action>)
    requires BothSawIt(s, key)
    ensures Run(s, acts).queries == [Query(key, 0, 0), Query(key, 1, 11), Query(key, 2, 11)]
  {
    AloneItAsks(s, 2, key, 0);
    var s1 := Run(s, Eight(2, 0));
    assert At(s1, 1) == Purging(key) && s1.cache[key].expires == 21;
    var s2 := Next(s1, Proceed(1, 0));
    assert At(s2, 1) == Joining(key) && key !in s2.cache;
    AloneItAsks(s2, 1, key, 0);
    acts := Eight(2, 0) + ([Proceed(1, 0)] + Eight(1, 0));
    RunAppend(s, Eight(2, 0), [Proceed(1, 0)] + Eight(1, 0));
    assert ([Proceed(1, 0)] + Eight(1, 0))[1..] == Eight(1, 0);
  }

  // ----- every window, exactly ----------------------------------------------------------------

  /** Whatever happens from here on, no query for the key is added by the limit. */
  ghost predicate AsksNoMoreBy(s: State, key: string, limit: int) {
    forall more: seq<Action> :: AskedBy(Run(s, more).queries, key, limit) == AskedBy(s.queries, key, limit)
  }

  ghost predicate NobodyDeletes(s: State, key: string) {
    forall p: Pid :: At(s, p) != Purging(key)
  }

  lemma {:induction false} GuardLasts(s: State, more: seq<Action>, key: string, limit: int)
    requires SampledBefore(s) && Guarded(s, key, limit)
    ensures AskedBy(Run(s, more).queries, key, limit) == AskedBy(s.queries, key, limit)
    decreases |more|
  {
    if more == [] {
    } else {
      GuardKept(s, more[0], key, limit);
      SamplesKept(s, more[0]);
      GuardLasts(Next(s, more[0]), more[1..], key, limit);
    }
  }

  /** Right after a store its leader is about to leave, and is alone with the key. */
  lemma StoreCovers(s: State, p: Pid, key: string, call: CallId, d: Decision, verdict: nat)
    requires OneLeaderPerKey(s) && At(s, p) == Leading(key, call, Storing(d)) && NobodyDeletes(s, key)
    ensures Guarded(Next(s, Proceed(p, verdict)), key, d.expires)
  {
    LeadMovesOne(s, p, key, call, Storing(d), verdict);
  }

  /** The leader returns, the late delete removes the fresh entry, and its caller asks. */
  lemma LateDeleteAsksAgain(s: State, p: Pid, q: Pid, key: string, call: CallId, d: Decision)
    requires At(s, p) == Leading(key, call, Finishing(d)) && At(s, q) == Purging(key)
    ensures Run(s, [Proceed(p, 0), Proceed(p, 0)] + ([Proceed(q, 0)] + Eight(q, 0))).queries ==
            s.queries + [Query(key, s.nextCall, s.now)]
  {
    RunTwo(s, Proceed(p, 0), Proceed(p, 0));
    var s1 := Next(s, Proceed(p, 0));
    LeadStep(s, p, key, call, Finishing(d), 0);
    assert At(s1, p) == Leading(key, call, Leaving(d)) && At(s1, q) == At(s, q);
    var s2 := Next(s1, Proceed(p, 0));
    assert s2 == Leave(s1, p, key, call, d) && At(s2, q) == Purging(key);
    var s3 := Next(s2, Proceed(q, 0));
    assert s3 == Purge(s2, q, key) && At(s3, q) == Joining(key);
    AloneItAsks(s3, q, key, 0);
    RunAppend(s, [Proceed(p, 0), Proceed(p, 0)], [Proceed(q, 0)] + Eight(q, 0));
    assert ([Proceed(q, 0)] + Eight(q, 0))[1..] == Eight(q, 0);
  }

  lemma GuardedAsksNoMore(s: State, key: string, limit: int)
    requires SampledBefore(s) && Guarded(s, key, limit)
    ensures AsksNoMoreBy(s, key, limit)
  {
    forall more: seq<Action>
      ensures AskedBy(Run(s, more).queries, key, limit) == AskedBy(s.queries, key, limit)
    {
      GuardLasts(s, more, key, limit);
    }
  }

  lemma LateDeleteBreaksTheWindow(s: State, p: Pid, q: Pid, key: string, call: CallId, d: Decision, limit: int)
    requires At(s, p) == Leading(key, call, Finishing(d)) && At(s, q) == Purging(key) && s.now <= limit
    ensures !AsksNoMoreBy(s, key, limit)
  {
    LateDeleteAsksAgain(s, p, q, key, call, d);
    AskedSnoc(s.queries, Query(key, s.nextCall, s.now), key, limit);
  }

  /** A store, seen from the state before it. */
  lemma StoreStep(s: State, p: Pid, key: string, call: CallId, d: Decision, verdict: nat)
    requires At(s, p) == Leading(key, call, Storing(d))
    ensures var s' := Next(s, Proceed(p, verdict));
            OnlyMoves(s, s', p) && At(s', p) == Leading(key, call, Finishing(d)) && s'.now == s.now
  {
    LeadMovesOne(s, p, key, call, Storing(d), verdict);
  }

  /** For every store in every run from a cold cache: whatever happens afterwards, no
      further query for the key is issued up to the stored expiry, exactly when nobody
      is about to delete the key's entry as it is stored (or it has expired by then). */
  lemma StoredWindowExactly(ttl: nat, now: int, actions: seq<Action>, p: Pid, key: string, call: CallId, d: Decision,
                            verdict: nat)
    requires At(Run(Cold(ttl, now), actions), p) == Leading(key, call, Storing(d))
    ensures var s := Run(Cold(ttl, now), actions);
            AsksNoMoreBy(Next(s, Proceed(p, verdict)), key, d.expires) <==> NobodyDeletes(s, key) || d.expires < s.now
  {
    ColdIsInv(ttl, now);
    InvAlways(Cold(ttl, now), actions);
    var s := Run(Cold(ttl, now), actions);
    var s' := Next(s, Proceed(p, verdict));
    StoreStep(s, p, key, call, d, verdict);
    SamplesKept(s, Proceed(p, verdict));
    if d.expires < s.now {
      GuardedAsksNoMore(s', key, d.expires);
    } else if NobodyDeletes(s, key) {
      StoreCovers(s, p, key, call, d, verdict);
      GuardedAsksNoMore(s', key, d.expires);
    } else {
      var q: Pid :| At(s, q) == Purging(key);
      LateDeleteBreaksTheWindow(s', p, q, key, call, d, d.expires);
    }
  }

  /** The bound is for the first window only. One caller asks; after the expiry two
      callers both see the old entry; one of them deletes it, asks and stores a fresh
      one; then the other deletes that and asks again at the same instant. */
  lemma LaterWindowsCanAskTwice(key: string)
    ensures exists actions ::
              Run(Cold(10, 0), actions).queries == [Query(key, 0, 0), Query(key, 1, 11), Query(key, 2, 11)]
  {
    var first := FirstRound(key);
    FirstIsServed(key);
    var s1 := Run(Cold(10, 0), first);
    var second := BothSeeIt(s1, key);
    var s2 := Run(s1, second);
    var third := BothAsk(s2, key);
    RunAppend(Cold(10, 0), first, second);
    RunAppend(Cold(10, 0), first + second, third);
    assert Run(Cold(10, 0), first + second + third).queries == [Query(key, 0, 0), Query(key, 1, 11), Query(key, 2, 11)];
  }

  lemma RunTwo(s: State, a: Action, b: Action)
    ensures Run(s, [a, b]) == Next(Next(s, a), b)
  {
    assert [a, b][1..] == [b] && [b][1..] == [];
    assert Run(Next(s, a), [b]) == Next(Next(s, a), b);
  }
}
