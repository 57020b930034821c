/** CheckIP and the single-flight group of internal/antivpn/engine.go, over every
    interleaving of callers. Each step is one locked section or one clock sample. */
module Flight {

  type Pid = nat
  type CallId = nat

  /** A decision and its expiry; the verdict stands for everything else. */
  datatype Decision = Decision(verdict: nat, expires: int)

  /** Where the leader of a call stands inside the function it runs, or after it. */
  datatype Phase =
    | Entered
    | Reprobing(at: int)
    | Repurging
    | Asking
    | Querying
    | Storing(decision: Decision)
    | Finishing(decision: Decision)
    | Leaving(decision: Decision)

  /** Where a caller of CheckIP stands. */
  datatype Pc =
    | Idle
    | Probing(key: string, at: int)
    | Purging(key: string)
    | Joining(key: string)
    | Following(key: string, call: CallId)
    | Leading(key: string, call: CallId, phase: Phase)

  datatype Query = Query(key: string, call: CallId, at: int)

  /** What a caller asked for and returned: a hit at its first lookup, sampled at an
      instant, or the result of a call of the group. */
  datatype Answer =
    | Cached(p: Pid, key: string, at: int, decision: Decision)
    | Shared(p: Pid, key: string, call: CallId, leader: bool, decision: Decision)

  /** owners says which key a call was made for; queries, firstExpiry and answers are
      the history. */
  datatype State = State(
    ttl: nat,
    now: int,
    cache: map<string, Decision>,
    calls: map<string, CallId>,
    results: map<CallId, Decision>,
    nextCall: CallId,
    owners: map<CallId, string>,
    pcs: map<Pid, Pc>,
    queries: seq<Query>,
    firstExpiry: map<string, int>,
    answers: seq<Answer>)

  function Cold(ttl: nat, now: int): State {
    State(ttl, now, map[], map[], map[], 0, map[], map[], [], map[], [])
  }

  function At(s: State, p: Pid): Pc { if p in s.pcs then s.pcs[p] else Idle }

  function Go(s: State, p: Pid, pc: Pc): State { s.(pcs := s.pcs[p := pc]) }

  // ----- the steps ---------------------------------------------------------------

  /** cache.Get before the group. */
  function Probe(s: State, p: Pid, key: string, at: int): State {
    if key !in s.cache then Go(s, p, Joining(key))
    else if at > s.cache[key].expires then Go(s, p, Purging(key))
    else Go(s.(answers := s.answers + [Cached(p, key, at, s.cache[key])]), p, Idle)
  }

  function Purge(s: State, p: Pid, key: string): State {
    Go(s.(cache := s.cache - {key}), p, Joining(key))
  }

  /** A new call in the table. */
  function Register(s: State, key: string): State {
    s.(calls := s.calls[key := s.nextCall], nextCall := s.nextCall + 1, owners := s.owners[s.nextCall := key])
  }

  /** The first locked section of Do. */
  function Join(s: State, p: Pid, key: string): State {
    if key in s.calls then Go(s, p, Following(key, s.calls[key]))
    else Go(Register(s, key), p, Leading(key, s.nextCall, Entered))
  }

  /** A follower waits until the call is done. */
  function Follow(s: State, p: Pid, key: string, call: CallId): State {
    if call !in s.results then s
    else Go(s.(answers := s.answers + [Shared(p, key, call, false, s.results[call])]), p, Idle)
  }

  /** The last locked section of Do. */
  function Leave(s: State, p: Pid, key: string, call: CallId, d: Decision): State {
    Go(s.(calls := s.calls - {key}, answers := s.answers + [Shared(p, key, call, true, d)]), p, Idle)
  }

  /** The next phase of a leader that is not leaving: the second cache.Get, the
      providers, the evaluation one TTL ahead of its expiry, cache.Set, and the result. */
  function NextPhase(s: State, key: string, phase: Phase, verdict: nat): Phase
    requires !phase.Leaving?
  {
    match phase
    case Entered => Reprobing(s.now)
    case Reprobing(at) =>
      if key !in s.cache then Asking else if at > s.cache[key].expires then Repurging else Finishing(s.cache[key])
    case Repurging => Asking
    case Asking => Querying
    case Querying => Storing(Decision(verdict, s.now + s.ttl))
    case Storing(d) => Finishing(d)
    case Finishing(d) => Leaving(d)
  }

  /** What the step out of a phase does to the shared state. */
  function PhaseEffect(s: State, key: string, call: CallId, phase: Phase): State {
    match phase
    case Repurging => s.(cache := s.cache - {key})
    case Asking => s.(queries := s.queries + [Query(key, call, s.now)])
    case Storing(d) =>
      s.(cache := s.cache[key := d],
         firstExpiry := if key in s.firstExpiry then s.firstExpiry else s.firstExpiry[key := d.expires])
    case Finishing(d) => s.(results := s.results[call := d])
    case _ => s
  }

  function Lead(s: State, p: Pid, key: string, call: CallId, phase: Phase, verdict: nat): State {
    if phase.Leaving? then Leave(s, p, key, call, phase.decision)
    else Go(PhaseEffect(s, key, call, phase), p, Leading(key, call, NextPhase(s, key, phase, verdict)))
  }

  function Act(s: State, p: Pid, verdict: nat): State {
    match At(s, p)
    case Idle => s
    case Probing(key, at) => Probe(s, p, key, at)
    case Purging(key) => Purge(s, p, key)
    case Joining(key) => Join(s, p, key)
    case Following(key, call) => Follow(s, p, key, call)
    case Leading(key, call, phase) => Lead(s, p, key, call, phase, verdict)
  }

  datatype Action = Tick(dt: nat) | CheckIP(p: Pid, key: string) | Proceed(p: Pid, verdict: nat)

  function Next(s: State, a: Action): State {
    match a
    case Tick(dt) => s.(now := s.now + dt)
    case CheckIP(p, key) => if At(s, p).Idle? then Go(s, p, Probing(key, s.now)) else s
    case Proceed(p, verdict) => Act(s, p, verdict)
  }

  function Run(s: State, actions: seq<Action>): State
    decreases |actions|
  {
    if actions == [] then s else Run(Next(s, actions[0]), actions[1..])
  }

  // ----- leaders -----------------------------------------------------------------

  /** A running call is in the table under its key, and runs once. */
  ghost predicate OneLeaderPerKey(s: State) {
    && (forall p :: At(s, p).Leading? ==> At(s, p).key in s.calls && s.calls[At(s, p).key] == At(s, p).call)
    && (forall p, q :: At(s, p).Leading? && At(s, q).Leading? && At(s, p).key == At(s, q).key ==> p == q)
    && (forall k, l :: k in s.calls && l in s.calls && s.calls[k] == s.calls[l] ==> k == l)
    && (forall k :: k in s.calls ==> s.calls[k] < s.nextCall)
  }

  /** Only p moved. */
  ghost predicate OnlyMoves(s: State, s': State, p: Pid) {
    forall q :: q != p ==> At(s', q) == At(s, q)
  }

  /** A step of a caller that neither joins nor leads. */
  ghost predicate Quiet(s: State, s': State, p: Pid) {
    && OnlyMoves(s, s', p)
    && s'.calls == s.calls && s'.results == s.results && s'.nextCall == s.nextCall && s'.owners == s.owners
    && !At(s, p).Leading? && !At(s', p).Leading?
    && (At(s', p).Following? ==> At(s', p) == At(s, p))
    && (forall r :: r in s'.answers ==> r in s.answers || r.Cached? || IsResult(s, At(s, p), r))
  }

  /** The answer of a follower. */
  ghost predicate IsResult(s: State, pc: Pc, r: Answer) {
    && pc.Following? && pc.call in s.results
    && r.Shared? && r.key == pc.key && r.call == pc.call && r.decision == s.results[pc.call]
  }

  lemma QuietGet(s: State, p: Pid, pc: Pc, cache: map<string, Decision>)
    requires !At(s, p).Leading? && !pc.Leading? && !pc.Following?
    ensures Quiet(s, Go(s.(cache := cache), p, pc), p)
  {
  }

  lemma QuietHit(s: State, p: Pid, key: string, at: int)
    requires !At(s, p).Leading? && key in s.cache && at <= s.cache[key].expires
    ensures Quiet(s, Probe(s, p, key, at), p)
  {
  }

  lemma QuietProbe(s: State, p: Pid, key: string, at: int)
    requires !At(s, p).Leading?
    ensures Quiet(s, Probe(s, p, key, at), p)
  {
    if key !in s.cache {
      QuietGet(s, p, Joining(key), s.cache);
    } else if at > s.cache[key].expires {
      QuietGet(s, p, Purging(key), s.cache);
    } else {
      QuietHit(s, p, key, at);
    }
  }

  lemma QuietFollow(s: State, p: Pid, key: string, call: CallId)
    requires At(s, p) == Following(key, call)
    ensures Quiet(s, Follow(s, p, key, call), p)
  {
  }

  lemma QuietSteps(s: State, a: Action)
    requires a.CheckIP? || (a.Proceed? && !At(s, a.p).Joining? && !At(s, a.p).Leading?)
    requires a.CheckIP? ==> At(s, a.p).Idle?
    ensures Quiet(s, Next(s, a), a.p)
  {
    if a.CheckIP? {
      QuietGet(s, a.p, Probing(a.key, s.now), s.cache);
    } else {
      match At(s, a.p) {
        case Idle =>
        case Probing(key, at) => QuietProbe(s, a.p, key, at);
        case Purging(key) => QuietGet(s, a.p, Joining(key), s.cache - {key});
        case Following(key, call) => QuietFollow(s, a.p, key, call);
      }
    }
  }

  lemma LeadMovesOne(s: State, p: Pid, key: string, call: CallId, phase: Phase, verdict: nat)
    ensures OnlyMoves(s, Lead(s, p, key, call, phase, verdict), p)
  {
  }

  lemma LeadersKeptByJoin(s: State, p: Pid, key: string)
    requires OneLeaderPerKey(s) && At(s, p) == Joining(key)
    ensures OneLeaderPerKey(Join(s, p, key))
  {
    assert OnlyMoves(s, Join(s, p, key), p);
  }

  lemma LeadersKeptByLeave(s: State, p: Pid, key: string, call: CallId, d: Decision)
    requires OneLeaderPerKey(s) && At(s, p) == Leading(key, call, Leaving(d))
    ensures OneLeaderPerKey(Leave(s, p, key, call, d))
  {
    var s' := Leave(s, p, key, call, d);
    assert OnlyMoves(s, s', p);
    forall q | At(s', q).Leading?
      ensures At(s', q).key in s'.calls && s'.calls[At(s', q).key] == At(s', q).call
    {
      assert At(s, q).key != key;
    }
  }

  lemma LeadersKeptByPhase(s: State, p: Pid, key: string, call: CallId, phase: Phase, verdict: nat)
    requires OneLeaderPerKey(s) && At(s, p) == Leading(key, call, phase) && !phase.Leaving?
    ensures OneLeaderPerKey(Lead(s, p, key, call, phase, verdict))
  {
    assert OnlyMoves(s, Lead(s, p, key, call, phase, verdict), p);
  }

  lemma LeadersKeptQuietly(s: State, s': State, p: Pid)
    requires OneLeaderPerKey(s) && Quiet(s, s', p)
    ensures OneLeaderPerKey(s')
  {
    assert forall q :: At(s', q).Leading? ==> q != p && At(s', q) == At(s, q);
  }

  lemma LeadersKeptByLead(s: State, p: Pid, key: string, call: CallId, phase: Phase, verdict: nat)
    requires OneLeaderPerKey(s) && At(s, p) == Leading(key, call, phase)
    ensures OneLeaderPerKey(Lead(s, p, key, call, phase, verdict))
  {
    if phase.Leaving? {
      LeadersKeptByLeave(s, p, key, call, phase.decision);
    } else {
      LeadersKeptByPhase(s, p, key, call, phase, verdict);
    }
  }

  lemma LeadersKept(s: State, a: Action)
    requires OneLeaderPerKey(s)
    ensures OneLeaderPerKey(Next(s, a))
  {
    if a.Tick? {
      assert forall p: Pid :: At(Next(s, a), p) == At(s, p);
    } else if a.Proceed? && At(s, a.p).Joining? {
      LeadersKeptByJoin(s, a.p, At(s, a.p).key);
    } else if a.Proceed? && At(s, a.p).Leading? {
      LeadersKeptByLead(s, a.p, At(s, a.p).key, At(s, a.p).call, At(s, a.p).phase, a.verdict);
    } else if a.Proceed? || At(s, a.p).Idle? {
      QuietSteps(s, a);
      LeadersKeptQuietly(s, Next(s, a), a.p);
    }
  }

  /** A leader's closing delete always removes its own call. */
  lemma LeaderDeletesItsOwnCall(s: State, p: Pid, verdict: nat)
    requires OneLeaderPerKey(s) && At(s, p).Leading? && At(s, p).phase.Leaving?
    ensures At(s, p).key in s.calls && s.calls[At(s, p).key] == At(s, p).call
    ensures Next(s, Proceed(p, verdict)).calls == s.calls - {At(s, p).key}
  {
  }

  // ----- results -------------------------------------------------------------------

  /** A call's result is set once, by its leader, and everybody returns it. */
  ghost predicate OneResultPerCall(s: State) {
    && (forall c :: c in s.results ==> c < s.nextCall)
    && (forall p :: At(s, p).Leading? ==>
          if At(s, p).phase.Leaving? then
            At(s, p).call in s.results && s.results[At(s, p).call] == At(s, p).phase.decision
          else At(s, p).call !in s.results)
    && (forall r :: r in s.answers && r.Shared? ==> r.call in s.results && s.results[r.call] == r.decision)
  }

  lemma ResultsKeptByLead(s: State, p: Pid, key: string, call: CallId, phase: Phase, verdict: nat)
    requires OneLeaderPerKey(s) && OneResultPerCall(s) && At(s, p) == Leading(key, call, phase)
    ensures OneResultPerCall(Lead(s, p, key, call, phase, verdict))
  {
    var s' := Lead(s, p, key, call, phase, verdict);
    assert OnlyMoves(s, s', p);
    forall q | q != p && At(s, q).Leading?
      ensures At(s, q).call != call
    {
      assert s.calls[At(s, q).key] == At(s, q).call && s.calls[key] == call;
    }
  }

  lemma ResultsKeptQuietly(s: State, s': State, p: Pid)
    requires OneResultPerCall(s) && Quiet(s, s', p)
    ensures OneResultPerCall(s')
  {
    assert forall q :: At(s', q).Leading? ==> q != p && At(s', q) == At(s, q);
  }

  lemma ResultsKeptByJoin(s: State, p: Pid, key: string)
    requires OneResultPerCall(s) && At(s, p) == Joining(key)
    ensures OneResultPerCall(Join(s, p, key))
  {
    assert OnlyMoves(s, Join(s, p, key), p);
  }

  lemma ResultsKept(s: State, a: Action)
    requires OneLeaderPerKey(s) && OneResultPerCall(s)
    ensures OneResultPerCall(Next(s, a))
  {
    if a.Tick? {
      assert forall p: Pid :: At(Next(s, a), p) == At(s, p);
    } else if a.Proceed? && At(s, a.p).Joining? {
      ResultsKeptByJoin(s, a.p, At(s, a.p).key);
    } else if a.Proceed? && At(s, a.p).Leading? {
      ResultsKeptByLead(s, a.p, At(s, a.p).key, At(s, a.p).call, At(s, a.p).phase, a.verdict);
    } else if a.Proceed? || At(s, a.p).Idle? {
      QuietSteps(s, a);
      ResultsKeptQuietly(s, Next(s, a), a.p);
    }
  }

  // ----- a call serves one address ---------------------------------------------------

  /** Whoever is in a call, or returned from it, asked for the key it was made for. */
  ghost predicate OneKeyPerCall(s: State) {
    && (forall c :: c in s.owners ==> c < s.nextCall)
    && (forall k :: k in s.calls ==> s.calls[k] in s.owners && s.owners[s.calls[k]] == k)
    && (forall p: Pid :: At(s, p).Following? || At(s, p).Leading? ==>
          At(s, p).call in s.owners && s.owners[At(s, p).call] == At(s, p).key)
    && (forall r :: r in s.answers && r.Shared? ==> r.call in s.owners && s.owners[r.call] == r.key)
  }

  lemma KeysKeptByRegister(s: State, p: Pid, key: string)
    requires OneKeyPerCall(s) && key !in s.calls
    ensures OneKeyPerCall(Go(Register(s, key), p, Leading(key, s.nextCall, Entered)))
  {
    var s' := Go(Register(s, key), p, Leading(key, s.nextCall, Entered));
    assert OnlyMoves(s, s', p);
    assert forall c :: c in s.owners ==> c in s'.owners && s'.owners[c] == s.owners[c];
  }

  lemma KeysKeptByJoin(s: State, p: Pid, key: string)
    requires OneKeyPerCall(s) && At(s, p) == Joining(key)
    ensures OneKeyPerCall(Join(s, p, key))
  {
    if key in s.calls {
      assert OnlyMoves(s, Join(s, p, key), p);
    } else {
      KeysKeptByRegister(s, p, key);
    }
  }

  lemma KeysKeptByLead(s: State, p: Pid, key: string, call: CallId, phase: Phase, verdict: nat)
    requires OneKeyPerCall(s) && At(s, p) == Leading(key, call, phase)
    ensures OneKeyPerCall(Lead(s, p, key, call, phase, verdict))
  {
    var s' := Lead(s, p, key, call, phase, verdict);
    LeadMovesOne(s, p, key, call, phase, verdict);
    assert At(s', p).Leading? ==> At(s', p).key == key && At(s', p).call == call;
    assert s'.owners == s.owners && s'.nextCall == s.nextCall;
    assert forall r :: r in s'.answers ==> r in s.answers || (r.Shared? && r.key == key && r.call == call);
  }

  lemma KeysKeptQuietly(s: State, s': State, p: Pid)
    requires OneKeyPerCall(s) && Quiet(s, s', p)
    ensures OneKeyPerCall(s')
  {
  }

  lemma KeysKept(s: State, a: Action)
    requires OneKeyPerCall(s)
    ensures OneKeyPerCall(Next(s, a))
  {
    if a.Tick? {
      assert forall p: Pid :: At(Next(s, a), p) == At(s, p);
    } else if a.Proceed? && At(s, a.p).Joining? {
      KeysKeptByJoin(s, a.p, At(s, a.p).key);
    } else if a.Proceed? && At(s, a.p).Leading? {
      KeysKeptByLead(s, a.p, At(s, a.p).key, At(s, a.p).call, At(s, a.p).phase, a.verdict);
    } else if a.Proceed? || At(s, a.p).Idle? {
      QuietSteps(s, a);
      KeysKeptQuietly(s, Next(s, a), a.p);
    }
  }

  // ----- nobody waits in vain ---------------------------------------------------------

  ghost predicate HasLeader(s: State, call: CallId) {
    exists q :: At(s, q).Leading? && At(s, q).call == call
  }

  /** Every call in the table has its leader, and every call somebody waits for has a
      leader or is done. */
  ghost predicate NobodyWaitsInVain(s: State) {
    && (forall k :: k in s.calls ==> HasLeader(s, s.calls[k]))
    && (forall p :: At(s, p).Following? ==> At(s, p).call in s.results || HasLeader(s, At(s, p).call))
  }

  lemma LeaderStays(s: State, s': State, p: Pid, call: CallId)
    requires HasLeader(s, call) && OnlyMoves(s, s', p)
    requires At(s, p).Leading? && At(s, p).call == call ==> At(s', p).Leading? && At(s', p).call == call
    ensures HasLeader(s', call)
  {
    var q :| At(s, q).Leading? && At(s, q).call == call;
    assert At(s', q).Leading? && At(s', q).call == call;
  }

  /** Every step but a leader's last keeps the leaders. */
  lemma LeadersStay(s: State, s': State, p: Pid)
    requires OnlyMoves(s, s', p)
    requires At(s, p).Leading? ==> At(s', p).Leading? && At(s', p).call == At(s, p).call
    ensures forall c :: HasLeader(s, c) ==> HasLeader(s', c)
  {
    forall c | HasLeader(s, c)
      ensures HasLeader(s', c)
    {
      LeaderStays(s, s', p, c);
    }
  }

  lemma WaitKeptByLeave(s: State, p: Pid, key: string, call: CallId, d: Decision)
    requires OneLeaderPerKey(s) && OneResultPerCall(s) && NobodyWaitsInVain(s)
    requires At(s, p) == Leading(key, call, Leaving(d))
    ensures NobodyWaitsInVain(Leave(s, p, key, call, d))
  {
    var s' := Leave(s, p, key, call, d);
    assert OnlyMoves(s, s', p);
    forall c | HasLeader(s, c) && c != call
      ensures HasLeader(s', c)
    {
      LeaderStays(s, s', p, c);
    }
    assert forall k :: k in s'.calls ==> s'.calls[k] != call;
  }

  lemma WaitKeptByPhase(s: State, p: Pid, key: string, call: CallId, phase: Phase, verdict: nat)
    requires NobodyWaitsInVain(s) && At(s, p) == Leading(key, call, phase) && !phase.Leaving?
    ensures NobodyWaitsInVain(Lead(s, p, key, call, phase, verdict))
  {
    var s' := Lead(s, p, key, call, phase, verdict);
    LeadMovesOne(s, p, key, call, phase, verdict);
    LeadersStay(s, s', p);
  }

  lemma WaitKeptByRegister(s: State, p: Pid, key: string)
    requires NobodyWaitsInVain(s) && At(s, p) == Joining(key)
    ensures NobodyWaitsInVain(Go(Register(s, key), p, Leading(key, s.nextCall, Entered)))
  {
    var s' := Go(Register(s, key), p, Leading(key, s.nextCall, Entered));
    LeadersStay(s, s', p);
    assert At(s', p).Leading? && At(s', p).call == s.nextCall;
    assert HasLeader(s', s.nextCall);
  }

  lemma WaitKeptByJoin(s: State, p: Pid, key: string)
    requires NobodyWaitsInVain(s) && At(s, p) == Joining(key)
    ensures NobodyWaitsInVain(Join(s, p, key))
  {
    if key in s.calls {
      LeadersStay(s, Join(s, p, key), p);
    } else {
      WaitKeptByRegister(s, p, key);
    }
  }

  lemma WaitKeptQuietly(s: State, s': State, p: Pid)
    requires NobodyWaitsInVain(s) && Quiet(s, s', p)
    ensures NobodyWaitsInVain(s')
  {
    LeadersStay(s, s', p);
  }

  lemma WaitKept(s: State, a: Action)
    requires OneLeaderPerKey(s) && OneResultPerCall(s) && NobodyWaitsInVain(s)
    ensures NobodyWaitsInVain(Next(s, a))
  {
    if a.Tick? {
      LeadersStay(s, Next(s, a), 0);
    } else if a.Proceed? && At(s, a.p).Joining? {
      WaitKeptByJoin(s, a.p, At(s, a.p).key);
    } else if a.Proceed? && At(s, a.p).Leading? {
      if At(s, a.p).phase.Leaving? {
        WaitKeptByLeave(s, a.p, At(s, a.p).key, At(s, a.p).call, At(s, a.p).phase.decision);
      } else {
        WaitKeptByPhase(s, a.p, At(s, a.p).key, At(s, a.p).call, At(s, a.p).phase, a.verdict);
      }
    } else if a.Proceed? || At(s, a.p).Idle? {
      QuietSteps(s, a);
      WaitKeptQuietly(s, Next(s, a), a.p);
    }
  }
}
