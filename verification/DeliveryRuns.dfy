/** What the drop counter of internal/antivpn/dispatcher.go counts, and the theorems over
    whole runs of the delivery protocol. */
module DeliveryRuns {
  import opened Text
  import opened Delivery

  // ----- what the drop counter counts -----------------------------------------------------

  function Lost(s: State): nat { |s.evicted| + |s.rejected| }

  predicate HoldsLock(pc: Pc) { pc.Locked? || pc.Popped? || pc.Settled? }

  ghost predicate LockHeldByOne(s: State) {
    forall p: Pid :: HoldsLock(At(s, p)) <==> s.lock == Some(p)
  }

  lemma LockKept(s: State, a: Action)
    requires LockHeldByOne(s)
    ensures LockHeldByOne(Next(s, a))
  {
    if a.Deliver? {
      OfferMovesOne(s, a.p);
    } else if a.Proceed? {
      ActMovesOne(s, a.p);
    }
  }

  /** Publishers whose drop is decided and not yet recorded. */
  function Owed(s: State): set<Pid> {
    set p | p in s.pcs && (s.pcs[p].Settled? || s.pcs[p].Counting?)
  }

  /** One event is evicted and the delivery that evicted it is still undecided. */
  function Between(s: State): nat {
    if s.lock.Some? && At(s, s.lock.value).Popped? && At(s, s.lock.value).evicted then 1 else 0
  }

  ghost predicate Balanced(s: State) {
    && Lost(s) + s.spared == s.dropped + |Owed(s)| + s.doubled + Between(s)
    && s.doubled <= s.dropped + |Owed(s)|
  }

  lemma OwedSame(s: State, s': State, p: Pid, pc: Pc)
    requires s'.pcs == s.pcs[p := pc]
    requires (pc.Settled? || pc.Counting?) == (At(s, p).Settled? || At(s, p).Counting?)
    ensures Owed(s') == Owed(s)
  {
  }

  lemma OwedMore(s: State, s': State, p: Pid, pc: Pc)
    requires s'.pcs == s.pcs[p := pc] && (pc.Settled? || pc.Counting?)
    requires !At(s, p).Settled? && !At(s, p).Counting?
    ensures Owed(s') == Owed(s) + {p} && p !in Owed(s)
  {
  }

  lemma OwedLess(s: State, s': State, p: Pid)
    requires s'.pcs == s.pcs[p := Idle] && At(s, p).Counting?
    ensures Owed(s') == Owed(s) - {p} && p in Owed(s)
  {
  }

  lemma BalanceKeptByOffer(s: State, p: Pid)
    requires Balanced(s) && LockHeldByOne(s) && At(s, p).Idle?
    ensures Balanced(Offer(s, p))
  {
    var s' := Offer(s, p);
    assert s.lock != Some(p);
    if |s.queue| < s.cap {
    } else if s.policy.DropNewest? {
      OwedMore(s, s', p, At(s', p));
    } else {
      OwedSame(s, s', p, At(s', p));
    }
  }

  lemma BalanceKeptByPop(s: State, p: Pid, ev: Event)
    requires Balanced(s) && LockHeldByOne(s) && At(s, p) == Locked(ev)
    ensures Balanced(Pop(s, p, ev))
  {
    assert s.lock == Some(p);
    OwedSame(s, Pop(s, p, ev), p, At(Pop(s, p, ev), p));
  }

  lemma BalanceKeptByRetry(s: State, p: Pid, ev: Event, evicted: bool)
    requires Balanced(s) && LockHeldByOne(s) && At(s, p) == Popped(ev, evicted)
    ensures Balanced(Retry(s, p, ev, evicted))
  {
    assert s.lock == Some(p);
    OwedMore(s, Retry(s, p, ev, evicted), p, At(Retry(s, p, ev, evicted), p));
  }

  lemma BalanceKeptByLocks(s: State, p: Pid)
    requires Balanced(s) && LockHeldByOne(s) && (At(s, p).Slow? || At(s, p).Settled?)
    ensures Balanced(Act(s, p))
  {
    var s' := Act(s, p);
    assert At(s, p).Settled? ==> s.lock == Some(p);
    if s' != s {
      OwedSame(s, s', p, At(s', p));
    }
  }

  lemma BalanceKeptByCount(s: State, p: Pid, ev: Event, ok: bool)
    requires Balanced(s) && LockHeldByOne(s) && At(s, p) == Counting(ev, ok)
    ensures Balanced(Count(s, p, ev, ok))
  {
    if s.lock.None? {
      OwedLess(s, Count(s, p, ev, ok), p);
    }
  }

  lemma BalanceKept(s: State, a: Action)
    requires Balanced(s) && LockHeldByOne(s)
    ensures Balanced(Next(s, a))
  {
    if a.Deliver? {
      if At(s, a.p).Idle? {
        BalanceKeptByOffer(s, a.p);
      }
    } else if a.Handle? {
      assert Owed(Take(s)) == Owed(s);
    } else {
      match At(s, a.p) {
        case Locked(ev) => BalanceKeptByPop(s, a.p, ev);
        case Popped(ev, evicted) => BalanceKeptByRetry(s, a.p, ev, evicted);
        case Counting(ev, ok) => BalanceKeptByCount(s, a.p, ev, ok);
        case Slow(_) => BalanceKeptByLocks(s, a.p);
        case Settled(_, _) => BalanceKeptByLocks(s, a.p);
        case Idle =>
      }
    }
  }

  /** Under drop-newest nobody evicts, so every recorded drop is one rejected event. */
  ghost predicate NothingEvicted(s: State) {
    s.policy.DropNewest? ==>
      && s.evicted == [] && s.spared == 0 && s.doubled == 0
      && forall p: Pid :: At(s, p).Idle? || At(s, p).Counting?
  }

  lemma NothingEvictedKept(s: State, a: Action)
    requires NothingEvicted(s)
    ensures NothingEvicted(Next(s, a))
  {
    match a {
      case Deliver(p) => OfferMovesOne(s, p);
      case Proceed(p) =>
        ActMovesOne(s, p);
        assert At(s, p).Idle? || At(s, p).Counting? ==> At(Act(s, p), p).Idle? || At(Act(s, p), p).Counting?;
      case Handle =>
        assert forall p: Pid :: At(Take(s), p) == At(s, p);
    }
  }

  // ----- whole runs --------------------------------------------------------------------------

  ghost predicate Inv(s: State) {
    && InOrder(s) && OwnEvents(s) && Accounted(s) && Truthful(s)
    && SentInOrder(s) && LockHeldByOne(s) && Balanced(s) && NothingEvicted(s)
  }

  lemma InvKept(s: State, a: Action)
    requires Inv(s)
    ensures Inv(Next(s, a))
  {
    OrderKept(s, a);
    OwnEventsKept(s, a);
    AccountedKept(s, a);
    TruthKept(s, a);
    SentInOrderKept(s, a);
    LockKept(s, a);
    BalanceKept(s, a);
    NothingEvictedKept(s, a);
  }

  lemma {:induction false} InvAlways(s: State, actions: seq<Action>)
    requires Inv(s)
    ensures Inv(Run(s, actions))
    decreases |actions|
  {
    if actions == [] {
    } else {
      InvKept(s, actions[0]);
      InvAlways(Next(s, actions[0]), actions[1..]);
    }
  }

  lemma InvEmpty(policy: Policy, bufferSize: int)
    ensures Inv(Empty(policy, bufferSize))
  {
    var s := Empty(policy, bufferSize);
    assert forall p: Pid :: At(s, p) == Idle;
    assert Owed(s) == {};
  }

  lemma {:induction false} SettingsStay(s: State, actions: seq<Action>)
    ensures Run(s, actions).policy == s.policy && Run(s, actions).cap == s.cap
    decreases |actions|
  {
    if actions == [] {
    } else {
      SettingsStay(Next(s, actions[0]), actions[1..]);
    }
  }

  /** Every delivery is in exactly one place, at every moment of every run. */
  lemma EveryDeliveryOnce(policy: Policy, bufferSize: int, actions: seq<Action>)
    ensures var s := Run(Empty(policy, bufferSize), actions);
            Accounted(s) && Truthful(s) && |s.queue| <= if bufferSize <= 0 then 256 else bufferSize
  {
    InvEmpty(policy, bufferSize);
    InvAlways(Empty(policy, bufferSize), actions);
    SettingsStay(Empty(policy, bufferSize), actions);
  }

  /** What was handled, then what is queued, is a subsequence of the channel's send
      order, and keeps every publisher's own order. */
  lemma SendOrderSurvives(policy: Policy, bufferSize: int, actions: seq<Action>)
    ensures var s := Run(Empty(policy, bufferSize), actions);
            IsSubsequence(s.handled + s.queue, s.sent) && Ordered(s.handled + s.queue)
  {
    InvEmpty(policy, bufferSize);
    InvAlways(Empty(policy, bufferSize), actions);
    var s := Run(Empty(policy, bufferSize), actions);
    HandledThenQueued(s);
  }

  lemma HandledThenQueued(s: State)
    requires InOrder(s) && Ordered(s.sent)
    ensures IsSubsequence(s.handled + s.queue, s.sent) && Ordered(s.handled + s.queue)
  {
    SelectIsSubsequence(s.sent, s.fates, true);
    SubsequenceAppend(s.handled, s.sent[..|s.fates|], s.queue);
    assert s.sent[..|s.fates|] + s.queue == s.sent;
    SubsequenceOrdered(s.handled + s.queue, s.sent);
  }

  ghost predicate Quiescent(s: State) { forall p: Pid :: At(s, p).Idle? }

  /** With nobody inside deliver, the counter is the number of lost events, plus the
      slow deliveries that lost nothing, minus those that lost two; so at most twice
      the counter is lost, and exactly the counter under drop-newest. */
  lemma LossesAgainstTheCounter(policy: Policy, bufferSize: int, actions: seq<Action>)
    requires Quiescent(Run(Empty(policy, bufferSize), actions))
    ensures var s := Run(Empty(policy, bufferSize), actions);
            && Lost(s) + s.spared == s.dropped + s.doubled
            && Lost(s) <= 2 * s.dropped
            && (policy.DropNewest? ==> Lost(s) == s.dropped)
  {
    InvEmpty(policy, bufferSize);
    InvAlways(Empty(policy, bufferSize), actions);
    SettingsStay(Empty(policy, bufferSize), actions);
    var s := Run(Empty(policy, bufferSize), actions);
    assert forall p :: p in s.pcs ==> At(s, p).Idle?;
    assert Owed(s) == {};
  }
}
