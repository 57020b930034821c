/** What CheckIP answers (internal/antivpn/engine.go), over whole runs from a cold cache:
    every answer is a decision that a leader evaluated from its own query for that very
    address and stored under it, and every question gets one answer. */
module FlightAnswers {
  import opened Flight
  import opened FlightWindow

  /** A run: states[i] is the state before actions[i]. */
  datatype Story = Story(ttl: nat, states: seq<State>, actions: seq<Action>)

  ghost predicate IsStory(story: Story, start: int) {
    && |story.states| == |story.actions| + 1
    && story.states[0] == Cold(story.ttl, start)
    && forall i: nat :: i < |story.actions| ==> story.states[i + 1] == Next(story.states[i], story.actions[i])
  }

  // ----- what happened at a step ------------------------------------------------------

  /** Step i is one of caller p, standing at pc. */
  ghost predicate Moves(story: Story, i: nat, p: Pid, pc: Pc) {
    && i < |story.actions| && i < |story.states|
    && story.actions[i].Proceed? && story.actions[i].p == p && At(story.states[i], p) == pc
  }

  ghost predicate Asks(story: Story, i: nat, p: Pid, key: string, at: int) {
    && i < |story.actions| && i < |story.states|
    && story.actions[i] == CheckIP(p, key) && At(story.states[i], p).Idle? && story.states[i].now == at
  }

  ghost predicate HasAsked(queries: seq<Query>, key: string, call: CallId) {
    exists q :: q in queries && q.key == key && q.call == call
  }

  /** Step i is a leader's evaluation of the query its call has made, one TTL ahead. */
  ghost predicate Evaluates(story: Story, i: nat, p: Pid, key: string, call: CallId, d: Decision) {
    && Moves(story, i, p, Leading(key, call, Querying))
    && d == Decision(story.actions[i].verdict, story.states[i].now + story.ttl)
    && HasAsked(story.states[i].queries, key, call)
  }

  /** Step i leaves the decision in the cache under the key. */
  ghost predicate Stores(story: Story, i: nat, p: Pid, key: string, call: CallId, d: Decision) {
    && Moves(story, i, p, Leading(key, call, Storing(d)))
    && i + 1 < |story.states| && key in story.states[i + 1].cache && story.states[i + 1].cache[key] == d
  }

  /** Two steps of one caller, the earlier first. */
  datatype Steps = Steps(first: nat, second: nat, p: Pid)

  /** A leader evaluates the decision for the key in this call and then stores it. */
  ghost predicate Makes(story: Story, w: Steps, key: string, call: CallId, d: Decision) {
    && w.first < w.second
    && Evaluates(story, w.first, w.p, key, call, d) && Stores(story, w.second, w.p, key, call, d)
  }

  ghost predicate Made(story: Story, n: nat, key: string, d: Decision) {
    exists w: Steps, call: CallId :: w.second < n && Makes(story, w, key, call, d)
  }

  /** Step i finds the decision in the cache, unexpired at a sample. */
  ghost predicate Finds(story: Story, i: nat, p: Pid, pc: Pc, key: string, at: int, d: Decision) {
    && Moves(story, i, p, pc)
    && key in story.states[i].cache && story.states[i].cache[key] == d && at <= d.expires
  }

  /** A leader samples the clock in this call and then finds the decision, at its second lookup. */
  ghost predicate FindsAgain(story: Story, w: Steps, key: string, call: CallId, d: Decision) {
    && w.first < w.second && Moves(story, w.first, w.p, Leading(key, call, Entered))
    && var at := story.states[w.first].now;
       Finds(story, w.second, w.p, Leading(key, call, Reprobing(at)), key, at, d)
  }

  /** The decision is the result of a leader of the call: made in it, or found in it. */
  ghost predicate Justified(story: Story, n: nat, key: string, call: CallId, d: Decision) {
    exists w: Steps :: w.second < n && (Makes(story, w, key, call, d) || FindsAgain(story, w, key, call, d))
  }

  /** A caller asks, sampling the clock, and then finds the decision, at its first lookup. */
  ghost predicate FindsFirst(story: Story, w: Steps, key: string, at: int, d: Decision) {
    && w.first < w.second && Asks(story, w.first, w.p, key, at)
    && Finds(story, w.second, w.p, Probing(key, at), key, at, d)
  }

  ghost predicate FoundFirst(story: Story, n: nat, p: Pid, key: string, at: int, d: Decision) {
    exists w: Steps :: w.p == p && w.second < n && FindsFirst(story, w, key, at, d)
  }

  // ----- every part of the state has its reason -----------------------------------------

  ghost predicate HasSampled(story: Story, n: nat, p: Pid, key: string, call: CallId, at: int) {
    exists i: nat :: i < n && Moves(story, i, p, Leading(key, call, Entered)) && story.states[i].now == at
  }

  ghost predicate HasEvaluated(story: Story, n: nat, p: Pid, key: string, call: CallId, d: Decision) {
    exists i: nat :: i < n && Evaluates(story, i, p, key, call, d)
  }

  ghost predicate HasProbed(story: Story, n: nat, p: Pid, key: string, at: int) {
    exists i: nat :: i < n && Asks(story, i, p, key, at)
  }

  ghost predicate PcStands(story: Story, n: nat, queries: seq<Query>, p: Pid, pc: Pc) {
    match pc
    case Probing(key, at) => HasProbed(story, n, p, key, at)
    case Leading(key, call, phase) =>
      (match phase
       case Reprobing(at) => HasSampled(story, n, p, key, call, at)
       case Querying => HasAsked(queries, key, call)
       case Storing(d) => HasEvaluated(story, n, p, key, call, d)
       case Finishing(d) => Justified(story, n, key, call, d)
       case Leaving(d) => Justified(story, n, key, call, d)
       case _ => true)
    case _ => true
  }

  ghost predicate PcsStand(story: Story, n: nat, s: State) {
    forall p :: PcStands(story, n, s.queries, p, At(s, p))
  }

  ghost predicate CacheStands(story: Story, n: nat, cache: map<string, Decision>) {
    forall k :: k in cache ==> Made(story, n, k, cache[k])
  }

  ghost predicate ResultsStand(story: Story, n: nat, s: State) {
    forall c :: c in s.results ==> c in s.owners && Justified(story, n, s.owners[c], c, s.results[c])
  }

  ghost predicate HitsStand(story: Story, n: nat, answers: seq<Answer>) {
    forall r :: r in answers && r.Cached? ==> FoundFirst(story, n, r.p, r.key, r.at, r.decision)
  }

  ghost predicate Stands(story: Story, n: nat)
    requires n < |story.states|
  {
    var s := story.states[n];
    && s.ttl == story.ttl && PcsStand(story, n, s) && CacheStands(story, n, s.cache) && ResultsStand(story, n, s)
    && HitsStand(story, n, s.answers)
  }

  // ----- what stood still stands ----------------------------------------------------------

  lemma JustifiedLater(story: Story, n: nat, key: string, call: CallId, d: Decision)
    requires Justified(story, n, key, call, d)
    ensures Justified(story, n + 1, key, call, d)
  {
  }

  lemma MadeLater(story: Story, n: nat, m: nat, key: string, d: Decision)
    requires Made(story, n, key, d) && n <= m
    ensures Made(story, m, key, d)
  {
  }

  lemma PcLater(story: Story, n: nat, queries: seq<Query>, queries': seq<Query>, p: Pid, pc: Pc)
    requires PcStands(story, n, queries, p, pc) && queries <= queries'
    ensures PcStands(story, n + 1, queries', p, pc)
  {
    if pc.Leading? && (pc.phase.Finishing? || pc.phase.Leaving?) {
      JustifiedLater(story, n, pc.key, pc.call, pc.phase.decision);
    }
  }

  /** The caller that moved has to be looked at, the others stand as before. */
  lemma PcsStandAfter(story: Story, n: nat, s: State, s': State, p: Pid)
    requires PcsStand(story, n, s) && OnlyMoves(s, s', p) && s.queries <= s'.queries
    requires PcStands(story, n + 1, s'.queries, p, At(s', p))
    ensures PcsStand(story, n + 1, s')
  {
    forall q: Pid
      ensures PcStands(story, n + 1, s'.queries, q, At(s', q))
    {
      if q != p {
        assert PcStands(story, n, s.queries, q, At(s, q));
        PcLater(story, n, s.queries, s'.queries, q, At(s, q));
      }
    }
  }

  lemma CacheStandsAfter(story: Story, n: nat, cache: map<string, Decision>)
    requires CacheStands(story, n, cache)
    ensures CacheStands(story, n + 1, cache)
  {
    forall k | k in cache
      ensures Made(story, n + 1, k, cache[k])
    {
      MadeLater(story, n, n + 1, k, cache[k]);
    }
  }

  lemma ResultsStandAfter(story: Story, n: nat, s: State, s': State)
    requires ResultsStand(story, n, s)
    requires s'.results == s.results && forall c :: c in s.owners ==> c in s'.owners && s'.owners[c] == s.owners[c]
    ensures ResultsStand(story, n + 1, s')
  {
    forall c | c in s.results
      ensures c in s'.owners && Justified(story, n + 1, s'.owners[c], c, s.results[c])
    {
      JustifiedLater(story, n, s.owners[c], c, s.results[c]);
    }
  }

  lemma ResultsStandBySet(story: Story, n: nat, s: State, call: CallId, d: Decision)
    requires ResultsStand(story, n, s)
    requires call in s.owners && Justified(story, n + 1, s.owners[call], call, d)
    ensures ResultsStand(story, n + 1, s.(results := s.results[call := d]))
  {
    forall c | c in s.results && c != call
      ensures c in s.owners && Justified(story, n + 1, s.owners[c], c, s.results[c])
    {
      JustifiedLater(story, n, s.owners[c], c, s.results[c]);
    }
  }

  lemma HitsStandAfter(story: Story, n: nat, answers: seq<Answer>)
    requires HitsStand(story, n, answers)
    ensures HitsStand(story, n + 1, answers)
  {
  }

  // ----- the steps --------------------------------------------------------------------------

  /** A step that changes no result and only drops cache entries. */
  ghost predicate AddsNothing(s: State, s': State) {
    && s'.ttl == s.ttl && s'.results == s.results && s.queries <= s'.queries
    && (forall k :: k in s'.cache ==> k in s.cache && s'.cache[k] == s.cache[k])
    && (forall c :: c in s.owners ==> c in s'.owners && s'.owners[c] == s.owners[c])
    && (forall r :: r in s'.answers && r.Cached? ==> r in s.answers)
  }

  lemma StandsAfter(story: Story, n: nat, p: Pid)
    requires n + 1 < |story.states| && Stands(story, n)
    requires OnlyMoves(story.states[n], story.states[n + 1], p) && AddsNothing(story.states[n], story.states[n + 1])
    requires PcStands(story, n + 1, story.states[n + 1].queries, p, At(story.states[n + 1], p))
    ensures Stands(story, n + 1)
  {
    var s, s' := story.states[n], story.states[n + 1];
    PcsStandAfter(story, n, s, s', p);
    CacheStandsAfter(story, n, s.cache);
    ResultsStandAfter(story, n, s, s');
    HitsStandAfter(story, n, s.answers);
  }

  /** The steps that make no decision, store none and set no result. */
  lemma AddsNothingByOthers(s: State, p: Pid, verdict: nat)
    requires !At(s, p).Leading? && !At(s, p).Probing? && OneKeyPerCall(s)
    ensures OnlyMoves(s, Act(s, p, verdict), p) && AddsNothing(s, Act(s, p, verdict))
  {
    match At(s, p) {
      case Idle =>
      case Purging(key) => assert AddsNothing(s, Purge(s, p, key)) && OnlyMoves(s, Purge(s, p, key), p);
      case Joining(key) => assert AddsNothing(s, Join(s, p, key)) && OnlyMoves(s, Join(s, p, key), p);
      case Following(key, call) =>
        assert AddsNothing(s, Follow(s, p, key, call)) && OnlyMoves(s, Follow(s, p, key, call), p);
    }
  }

  lemma AddsNothingByLead(s: State, p: Pid, key: string, call: CallId, phase: Phase, verdict: nat)
    requires !phase.Storing? && !phase.Finishing?
    ensures OnlyMoves(s, Lead(s, p, key, call, phase, verdict), p)
    ensures AddsNothing(s, Lead(s, p, key, call, phase, verdict))
  {
  }

  /** What every step of a story may rely on. */
  ghost predicate Ready(story: Story, n: nat) {
    && n < |story.actions| && n + 1 < |story.states|
    && story.states[n + 1] == Next(story.states[n], story.actions[n])
    && Stands(story, n) && OneKeyPerCall(story.states[n])
  }

  lemma StandsByTick(story: Story, n: nat)
    requires Ready(story, n) && story.actions[n].Tick?
    ensures Stands(story, n + 1)
  {
    var s, s' := story.states[n], story.states[n + 1];
    assert forall p: Pid :: At(s', p) == At(s, p);
    PcLater(story, n, s.queries, s'.queries, 0, At(s, 0));
    StandsAfter(story, n, 0);
  }

  lemma StandsByAsk(story: Story, n: nat)
    requires Ready(story, n) && story.actions[n].CheckIP?
    ensures Stands(story, n + 1)
  {
    var s, s', p, key := story.states[n], story.states[n + 1], story.actions[n].p, story.actions[n].key;
    if At(s, p).Idle? {
      assert At(s', p) == Probing(key, s.now);
      assert Asks(story, n, p, key, s.now);
    } else {
      PcLater(story, n, s.queries, s'.queries, p, At(s, p));
    }
    StandsAfter(story, n, p);
  }

  lemma ProbeFinds(s: State, p: Pid, key: string, at: int)
    requires key in s.cache && at <= s.cache[key].expires
    ensures var s' := Probe(s, p, key, at);
            && OnlyMoves(s, s', p) && At(s', p) == Idle
            && s' == s.(pcs := s'.pcs, answers := s.answers + [Cached(p, key, at, s.cache[key])])
  {
  }

  lemma ProbeMisses(s: State, p: Pid, key: string, at: int)
    requires key in s.cache ==> s.cache[key].expires < at
    ensures var s' := Probe(s, p, key, at);
            && OnlyMoves(s, s', p) && AddsNothing(s, s')
            && At(s', p) == if key in s.cache then Purging(key) else Joining(key)
  {
  }

  lemma HitIsFound(story: Story, n: nat, p: Pid, key: string, at: int, d: Decision)
    requires PcStands(story, n, [], p, Probing(key, at)) && Finds(story, n, p, Probing(key, at), key, at, d)
    ensures FoundFirst(story, n + 1, p, key, at, d)
  {
    var i: nat :| i < n && Asks(story, i, p, key, at);
    assert FindsFirst(story, Steps(i, n, p), key, at, d);
  }

  lemma HitsStandBySnoc(story: Story, n: nat, answers: seq<Answer>, r: Answer)
    requires HitsStand(story, n, answers)
    requires r.Cached? ==> FoundFirst(story, n + 1, r.p, r.key, r.at, r.decision)
    ensures HitsStand(story, n + 1, answers + [r])
  {
    HitsStandAfter(story, n, answers);
  }

  lemma ProbingStands(story: Story, n: nat, p: Pid, key: string, at: int)
    requires n < |story.states| && Stands(story, n) && At(story.states[n], p) == Probing(key, at)
    ensures PcStands(story, n, [], p, Probing(key, at))
  {
    assert PcStands(story, n, story.states[n].queries, p, At(story.states[n], p));
  }

  lemma StandsByHit(story: Story, n: nat, p: Pid, key: string, at: int, d: Decision)
    requires Ready(story, n) && Finds(story, n, p, Probing(key, at), key, at, d)
    ensures Stands(story, n + 1)
  {
    var s, s' := story.states[n], story.states[n + 1];
    assert s' == Probe(s, p, key, at);
    ProbeFinds(s, p, key, at);
    ProbingStands(story, n, p, key, at);
    HitIsFound(story, n, p, key, at, d);
    PcsStandAfter(story, n, s, s', p);
    CacheStandsAfter(story, n, s.cache);
    ResultsStandAfter(story, n, s, s');
    HitsStandBySnoc(story, n, s.answers, Cached(p, key, at, d));
  }

  lemma StandsByProbe(story: Story, n: nat, p: Pid, key: string, at: int)
    requires Ready(story, n) && Moves(story, n, p, Probing(key, at))
    ensures Stands(story, n + 1)
  {
    var s, s' := story.states[n], story.states[n + 1];
    if key in s.cache && at <= s.cache[key].expires {
      StandsByHit(story, n, p, key, at, s.cache[key]);
    } else {
      assert s' == Probe(s, p, key, at);
      ProbeMisses(s, p, key, at);
      StandsAfter(story, n, p);
    }
  }

  lemma StandsByOthers(story: Story, n: nat, p: Pid, pc: Pc)
    requires Ready(story, n) && Moves(story, n, p, pc) && !pc.Leading? && !pc.Probing?
    ensures Stands(story, n + 1)
  {
    var s, a := story.states[n], story.actions[n];
    AddsNothingByOthers(s, p, a.verdict);
    StandsAfter(story, n, p);
  }

  lemma FoundAgain(story: Story, n: nat, p: Pid, key: string, call: CallId, at: int, d: Decision)
    requires HasSampled(story, n, p, key, call, at)
    requires Finds(story, n, p, Leading(key, call, Reprobing(at)), key, at, d)
    ensures Justified(story, n + 1, key, call, d)
  {
    var i: nat :| i < n && Moves(story, i, p, Leading(key, call, Entered)) && story.states[i].now == at;
    assert FindsAgain(story, Steps(i, n, p), key, call, d);
  }

  /** The phase a leader comes to has its reason. */
  lemma PhaseStands(story: Story, n: nat, p: Pid, key: string, call: CallId, phase: Phase)
    requires Ready(story, n) && Moves(story, n, p, Leading(key, call, phase))
    requires !phase.Storing? && !phase.Finishing? && !phase.Leaving?
    ensures PcStands(story, n + 1, story.states[n + 1].queries, p, At(story.states[n + 1], p))
  {
    var s, s', verdict := story.states[n], story.states[n + 1], story.actions[n].verdict;
    LeadStep(s, p, key, call, phase, verdict);
    assert At(s', p) == Leading(key, call, NextPhase(s, key, phase, verdict));
    match phase {
      case Entered =>
      case Reprobing(at) =>
        if key in s.cache && at <= s.cache[key].expires {
          assert PcStands(story, n, s.queries, p, At(s, p));
          FoundAgain(story, n, p, key, call, at, s.cache[key]);
        }
      case Repurging =>
      case Asking => assert Query(key, call, s.now) in s'.queries;
      case Querying =>
        assert PcStands(story, n, s.queries, p, At(s, p));
        assert Evaluates(story, n, p, key, call, Decision(verdict, s.now + s.ttl));
    }
  }

  lemma StandsByStore(story: Story, n: nat, p: Pid, key: string, call: CallId, d: Decision)
    requires Ready(story, n) && Moves(story, n, p, Leading(key, call, Storing(d)))
    ensures Stands(story, n + 1)
  {
    var s, s' := story.states[n], story.states[n + 1];
    assert s' == Lead(s, p, key, call, Storing(d), story.actions[n].verdict);
    assert PcStands(story, n, s.queries, p, At(s, p));
    var i: nat :| i < n && Evaluates(story, i, p, key, call, d);
    assert Makes(story, Steps(i, n, p), key, call, d);
    PcsStandAfter(story, n, s, s', p);
    CacheStandsAfter(story, n, s.cache);
    ResultsStandAfter(story, n, s, s');
    HitsStandAfter(story, n, s.answers);
  }

  lemma StandsByFinish(story: Story, n: nat, p: Pid, key: string, call: CallId, d: Decision)
    requires Ready(story, n) && Moves(story, n, p, Leading(key, call, Finishing(d)))
    ensures Stands(story, n + 1)
  {
    var s, s' := story.states[n], story.states[n + 1];
    assert s' == Lead(s, p, key, call, Finishing(d), story.actions[n].verdict);
    assert PcStands(story, n, s.queries, p, At(s, p));
    JustifiedLater(story, n, key, call, d);
    PcsStandAfter(story, n, s, s', p);
    CacheStandsAfter(story, n, s.cache);
    HitsStandAfter(story, n, s.answers);
    ResultsStandBySet(story, n, s, call, d);
  }

  lemma StandsByLead(story: Story, n: nat, p: Pid, key: string, call: CallId, phase: Phase)
    requires Ready(story, n) && Moves(story, n, p, Leading(key, call, phase))
    ensures Stands(story, n + 1)
  {
    match phase {
      case Storing(d) => StandsByStore(story, n, p, key, call, d);
      case Finishing(d) => StandsByFinish(story, n, p, key, call, d);
      case _ =>
        AddsNothingByLead(story.states[n], p, key, call, phase, story.actions[n].verdict);
        if !phase.Leaving? {
          PhaseStands(story, n, p, key, call, phase);
        }
        StandsAfter(story, n, p);
    }
  }

  lemma StandsKept(story: Story, n: nat)
    requires Ready(story, n)
    ensures Stands(story, n + 1)
  {
    var s, a := story.states[n], story.actions[n];
    if a.Tick? {
      StandsByTick(story, n);
    } else if a.CheckIP? {
      StandsByAsk(story, n);
    } else {
      match At(s, a.p) {
        case Probing(key, at) => StandsByProbe(story, n, a.p, key, at);
        case Leading(key, call, phase) => StandsByLead(story, n, a.p, key, call, phase);
        case pc => StandsByOthers(story, n, a.p, pc);
      }
    }
  }

  // ----- every answer is a query's result ----------------------------------------------------

  lemma MadeWhenJustified(story: Story, n: nat, key: string, call: CallId, d: Decision)
    requires n < |story.states| && Justified(story, n, key, call, d)
    requires forall j: nat :: j < n ==> Stands(story, j)
    ensures Made(story, n, key, d)
  {
    var w: Steps :| w.second < n && (Makes(story, w, key, call, d) || FindsAgain(story, w, key, call, d));
    if FindsAgain(story, w, key, call, d) {
      assert Stands(story, w.second);
      assert Made(story, w.second, key, story.states[w.second].cache[key]);
      MadeLater(story, w.second, n, key, d);
    }
  }

  lemma MadeWhenFoundFirst(story: Story, n: nat, p: Pid, key: string, at: int, d: Decision)
    requires n < |story.states| && FoundFirst(story, n, p, key, at, d)
    requires forall j: nat :: j < n ==> Stands(story, j)
    ensures Made(story, n, key, d)
  {
    var w: Steps :| w.p == p && w.second < n && FindsFirst(story, w, key, at, d);
    assert Stands(story, w.second);
    assert Made(story, w.second, key, story.states[w.second].cache[key]);
    MadeLater(story, w.second, n, key, d);
  }

  lemma {:induction false} StandsAlways(story: Story, start: int, n: nat)
    requires IsStory(story, start) && n < |story.states|
    ensures Inv(story.states[n]) && Stands(story, n)
    decreases n
  {
    if n == 0 {
      ColdIsInv(story.ttl, start);
      assert forall p :: At(story.states[0], p) == Idle;
    } else {
      StandsAlways(story, start, n - 1);
      assert Ready(story, n - 1);
      StandsKept(story, n - 1);
      InvKept(story.states[n - 1], story.actions[n - 1]);
    }
  }

  ghost predicate AnswerStands(story: Story, n: nat, r: Answer) {
    && Made(story, n, r.key, r.decision)
    && (r.Cached? ==> FoundFirst(story, n, r.p, r.key, r.at, r.decision))
    && (r.Shared? ==> Justified(story, n, r.key, r.call, r.decision))
  }

  /** In every run every answer is a decision that some leader evaluated from its own
      query for that address, one TTL ahead of its expiry, and stored under it. A caller
      that answered from its first lookup found it there, unexpired when it asked; the
      result of a call was made in that call or found at the second lookup, unexpired at
      a sample taken in the call. The cache holds nothing else. */
  lemma EveryAnswerWasEvaluated(story: Story, start: int, n: nat)
    requires IsStory(story, start) && n < |story.states|
    ensures forall r :: r in story.states[n].answers ==> AnswerStands(story, n, r)
    ensures forall k :: k in story.states[n].cache ==> Made(story, n, k, story.states[n].cache[k])
  {
    forall j: nat | j <= n
      ensures Inv(story.states[j]) && Stands(story, j)
    {
      StandsAlways(story, start, j);
    }
    var s := story.states[n];
    forall r | r in s.answers
      ensures AnswerStands(story, n, r)
    {
      if r.Cached? {
        MadeWhenFoundFirst(story, n, r.p, r.key, r.at, r.decision);
      } else {
        assert Justified(story, n, s.owners[r.call], r.call, s.results[r.call]);
        MadeWhenJustified(story, n, r.key, r.call, r.decision);
      }
    }
  }

  /** Stories are the runs, told state by state. */
  lemma {:induction false} EveryRunHasAStory(ttl: nat, start: int, actions: seq<Action>) returns (story: Story)
    ensures IsStory(story, start) && story.ttl == ttl && story.actions == actions
    ensures story.states[|actions|] == Run(Cold(ttl, start), actions)
    decreases |actions|
  {
    if actions == [] {
      story := Story(ttl, [Cold(ttl, start)], []);
    } else {
      var n := |actions| - 1;
      var last := [actions[n]];
      var before := EveryRunHasAStory(ttl, start, actions[..n]);
      var s := before.states[n];
      assert actions == actions[..n] + last && last[1..] == [];
      RunAppend(Cold(ttl, start), actions[..n], last);
      assert Run(s, last) == Next(s, actions[n]);
      story := Story(ttl, before.states + [Next(s, actions[n])], actions);
    }
  }

  // ----- every question gets one answer -------------------------------------------------------

  /** The keys a caller has asked for, and those it was answered about. */
  function Questions(story: Story, n: nat, p: Pid): seq<string>
    requires n <= |story.actions| && n < |story.states|
  {
    if n == 0 then []
    else
      var a := story.actions[n - 1];
      Questions(story, n - 1, p) +
      if a.CheckIP? && a.p == p && At(story.states[n - 1], p).Idle? then [a.key] else []
  }

  function Answered(answers: seq<Answer>, p: Pid): seq<string> {
    if answers == [] then []
    else
      var n := |answers| - 1;
      Answered(answers[..n], p) + if answers[n].p == p then [answers[n].key] else []
  }

  function Pending(pc: Pc): seq<string> {
    if pc.Idle? then [] else [pc.key]
  }

  lemma AnsweredSnoc(answers: seq<Answer>, r: Answer, p: Pid)
    ensures Answered(answers + [r], p) == Answered(answers, p) + if r.p == p then [r.key] else []
  {
    assert (answers + [r])[..|answers + [r]| - 1] == answers;
  }

  /** A step of q answers its question, or leaves it open. */
  ghost predicate Answers(s: State, s': State, q: Pid) {
    && OnlyMoves(s, s', q) && !At(s, q).Idle?
    && if At(s', q).Idle? then
         |s'.answers| == |s.answers| + 1 && s'.answers[..|s.answers|] == s.answers
         && s'.answers[|s.answers|].p == q && s'.answers[|s.answers|].key == At(s, q).key
       else s'.answers == s.answers && At(s', q).key == At(s, q).key
  }

  lemma LeadAnswers(s: State, q: Pid, key: string, call: CallId, phase: Phase, verdict: nat)
    requires At(s, q) == Leading(key, call, phase)
    ensures Answers(s, Lead(s, q, key, call, phase, verdict), q)
  {
  }

  lemma ProbeAnswers(s: State, q: Pid, key: string, at: int)
    requires At(s, q) == Probing(key, at)
    ensures Answers(s, Probe(s, q, key, at), q)
  {
  }

  lemma ProceedAnswers(s: State, q: Pid, verdict: nat)
    requires !At(s, q).Idle?
    ensures Answers(s, Act(s, q, verdict), q)
  {
    match At(s, q) {
      case Probing(key, at) => ProbeAnswers(s, q, key, at);
      case Purging(key) => assert Answers(s, Purge(s, q, key), q);
      case Joining(key) => assert Answers(s, Join(s, q, key), q);
      case Following(key, call) => assert Answers(s, Follow(s, q, key, call), q);
      case Leading(key, call, phase) => LeadAnswers(s, q, key, call, phase, verdict);
    }
  }

  lemma AnsweredByStep(s: State, s': State, q: Pid, p: Pid)
    requires Answers(s, s', q)
    ensures Answered(s'.answers, p) + Pending(At(s', p)) == Answered(s.answers, p) + Pending(At(s, p))
  {
    if At(s', q).Idle? {
      assert s'.answers == s.answers + [s'.answers[|s.answers|]];
      AnsweredSnoc(s.answers, s'.answers[|s.answers|], p);
    }
  }

  /** A step adds the question it asks, and nothing else. */
  lemma QuestionsByStep(s: State, a: Action, p: Pid)
    ensures Answered(Next(s, a).answers, p) + Pending(At(Next(s, a), p)) ==
            Answered(s.answers, p) + Pending(At(s, p)) +
            if a.CheckIP? && a.p == p && At(s, p).Idle? then [a.key] else []
  {
    if a.Proceed? && !At(s, a.p).Idle? {
      ProceedAnswers(s, a.p, a.verdict);
      AnsweredByStep(s, Next(s, a), a.p, p);
    }
  }

  /** Every caller is answered what it asked, in order, once each; at most its last
      question is still open. */
  lemma {:induction false} EveryQuestionIsAnsweredOnce(story: Story, start: int, n: nat, p: Pid)
    requires IsStory(story, start) && n < |story.states|
    ensures Questions(story, n, p) == Answered(story.states[n].answers, p) + Pending(At(story.states[n], p))
  {
    if n == 0 {
      assert story.states[0].answers == [] && At(story.states[0], p) == Idle;
    } else {
      EveryQuestionIsAnsweredOnce(story, start, n - 1, p);
      QuestionsByStep(story.states[n - 1], story.actions[n - 1], p);
    }
  }

  // ----- an unexpired entry is used -------------------------------------------------------------

  /** A caller that asks while an unexpired entry is cached is answered from it, and
      nothing else happens. */
  lemma UnexpiredIsReturned(s: State, p: Pid, key: string, verdict: nat)
    requires At(s, p).Idle? && key in s.cache && s.now <= s.cache[key].expires
    ensures var s' := Run(s, [CheckIP(p, key), Proceed(p, verdict)]);
            && OnlyMoves(s, s', p) && At(s', p) == Idle
            && s' == s.(pcs := s'.pcs, answers := s.answers + [Cached(p, key, s.now, s.cache[key])])
  {
    RunTwo(s, CheckIP(p, key), Proceed(p, verdict));
    var s1 := Next(s, CheckIP(p, key));
    assert At(s1, p) == Probing(key, s.now);
    ProbeFinds(s1, p, key, s.now);
  }

  /** From the join to the second lookup. */
  lemma JoinToReprobe(s: State, p: Pid, key: string, verdict: nat, n: nat)
    requires At(s, p) == Joining(key) && key !in s.calls
    ensures Run(s, Repeat(Proceed(p, verdict), n + 2)) ==
            Run(Go(Register(s, key), p, Leading(key, s.nextCall, Reprobing(s.now))), Repeat(Proceed(p, verdict), n))
  {
    var a, call := Proceed(p, verdict), s.nextCall;
    var s1 := Go(Register(s, key), p, Leading(key, call, Entered));
    assert Next(s, a) == s1;
    LeadStep(s1, p, key, call, Entered, verdict);
    RepeatStep(s, a, n + 2);
    RepeatStep(s1, a, n + 1);
    assert s1.pcs[p := Leading(key, call, Reprobing(s.now))] == s.pcs[p := Leading(key, call, Reprobing(s.now))];
  }

  lemma ReprobeToReturn(s: State, p: Pid, key: string, call: CallId, at: int, verdict: nat)
    requires At(s, p) == Leading(key, call, Reprobing(at)) && key in s.cache && at <= s.cache[key].expires
    ensures var s' := Run(s, Repeat(Proceed(p, verdict), 3));
            && OnlyMoves(s, s', p) && At(s', p) == Idle
            && s'.queries == s.queries && s'.cache == s.cache && s'.calls == s.calls - {key}
            && s'.answers == s.answers + [Shared(p, key, call, true, s.cache[key])]
  {
    var a, d := Proceed(p, verdict), s.cache[key];
    LeadStep(s, p, key, call, Reprobing(at), verdict);
    var s1 := Next(s, a);
    LeadStep(s1, p, key, call, Finishing(d), verdict);
    var s2 := Next(s1, a);
    assert Next(s2, a) == Leave(s2, p, key, call, d);
    RepeatStep(s, a, 3);
    RepeatStep(s1, a, 2);
    RepeatStep(s2, a, 1);
  }

  lemma ReprobeToQuery(s: State, p: Pid, key: string, call: CallId, at: int, verdict: nat)
    requires At(s, p) == Leading(key, call, Reprobing(at)) && key in s.cache && s.cache[key].expires < at
    ensures var s' := Run(s, Repeat(Proceed(p, verdict), 3));
            && OnlyMoves(s, s', p) && At(s', p) == Leading(key, call, Querying)
            && s'.cache == s.cache - {key} && s'.answers == s.answers
            && s'.queries == s.queries + [Query(key, call, s.now)]
  {
    var a := Proceed(p, verdict);
    LeadStep(s, p, key, call, Reprobing(at), verdict);
    var s1 := Next(s, a);
    LeadStep(s1, p, key, call, Repurging, verdict);
    var s2 := Next(s1, a);
    LeadStep(s2, p, key, call, Asking, verdict);
    RepeatStep(s, a, 3);
    RepeatStep(s1, a, 2);
    RepeatStep(s2, a, 1);
  }

  /** A leader that finds an unexpired entry at its second lookup returns it unasked. */
  lemma AloneItReuses(s: State, p: Pid, key: string, verdict: nat)
    requires At(s, p) == Joining(key) && key !in s.calls && key in s.cache && s.now <= s.cache[key].expires
    ensures var s' := Run(s, Repeat(Proceed(p, verdict), 5));
            && OnlyMoves(s, s', p) && At(s', p) == Idle
            && s'.queries == s.queries && s'.cache == s.cache && s'.calls == s.calls
            && s'.answers == s.answers + [Shared(p, key, s.nextCall, true, s.cache[key])]
  {
    var s1 := Go(Register(s, key), p, Leading(key, s.nextCall, Reprobing(s.now)));
    JoinToReprobe(s, p, key, verdict, 3);
    ReprobeToReturn(s1, p, key, s.nextCall, s.now, verdict);
    assert s1.calls - {key} == s.calls;
  }

  /** A leader that finds an expired entry there deletes it and asks. */
  lemma StaleIsAskedAgain(s: State, p: Pid, key: string, verdict: nat)
    requires At(s, p) == Joining(key) && key !in s.calls && key in s.cache && s.cache[key].expires < s.now
    ensures var s' := Run(s, Repeat(Proceed(p, verdict), 5));
            && OnlyMoves(s, s', p) && At(s', p) == Leading(key, s.nextCall, Querying)
            && s'.cache == s.cache - {key} && s'.answers == s.answers
            && s'.queries == s.queries + [Query(key, s.nextCall, s.now)]
  {
    JoinToReprobe(s, p, key, verdict, 3);
    ReprobeToQuery(Go(Register(s, key), p, Leading(key, s.nextCall, Reprobing(s.now))), p, key, s.nextCall, s.now,
                   verdict);
  }
}
