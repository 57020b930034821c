/** What one publisher gets from EventDispatcher.deliver (internal/antivpn/dispatcher.go),
    what an uninterrupted delivery does, and how far the drop counter can be off. */
module Backlog {
  import opened Delivery
  import opened DeliveryRuns

  /** All actions are the handler's or those of publisher p. */
  predicate OnlyPublisher(actions: seq<Action>, p: Pid) {
    forall a :: a in actions ==> a.Handle? || a.p == p
  }

  predicate NoHandling(actions: seq<Action>) {
    forall a :: a in actions ==> !a.Handle?
  }

  // ----- one publisher, drop-oldest: the newest event always gets in ----------------------

  ghost predicate AlwaysGetsIn(s: State, p: Pid) {
    && s.policy.DropOldest? && 0 < s.cap && |s.queue| <= s.cap
    && (At(s, p).Popped? ==> |s.queue| < s.cap)
    && (At(s, p).Settled? || At(s, p).Counting? ==> At(s, p).ok)
    && s.rejected == [] && forall r :: r in s.answers ==> r.ok
  }

  lemma GetsInByStep(s: State, a: Action, p: Pid)
    requires AlwaysGetsIn(s, p) && (a.Handle? || a.p == p)
    ensures AlwaysGetsIn(Next(s, a), p)
  {
    match a {
      case Handle => assert At(Take(s), p) == At(s, p);
      case Deliver(_) => OfferMovesOne(s, p);
      case Proceed(_) =>
        var s' := Act(s, p);
        assert forall r :: r in s'.answers ==> r in s.answers || (At(s, p).Counting? && r.ok == At(s, p).ok);
    }
  }

  lemma {:induction false} GetsInAlways(s: State, actions: seq<Action>, p: Pid)
    requires AlwaysGetsIn(s, p) && OnlyPublisher(actions, p)
    ensures AlwaysGetsIn(Run(s, actions), p)
    decreases |actions|
  {
    if actions == [] {
    } else {
      assert actions[0] in actions;
      GetsInByStep(s, actions[0], p);
      GetsInAlways(Next(s, actions[0]), actions[1..], p);
    }
  }

  /** A lone publisher is never refused under drop-oldest, whatever the handler does. */
  lemma LonePublisherIsNeverRefused(bufferSize: int, actions: seq<Action>, p: Pid)
    requires OnlyPublisher(actions, p)
    ensures var s := Run(Empty(DropOldest, bufferSize), actions);
            s.rejected == [] && forall r :: r in s.answers ==> r.ok && r.event in s.sent
  {
    GetsInAlways(Empty(DropOldest, bufferSize), actions, p);
    EveryDeliveryOnce(DropOldest, bufferSize, actions);
  }

  // ----- one publisher, no handling: which events stay -------------------------------------

  /** The events of p numbered from..to. */
  function Numbered(p: Pid, from: nat, to: nat): (r: seq<Event>)
    requires from <= to
    ensures |r| == to - from && forall i :: 0 <= i < |r| ==> r[i] == Event(p, from + i)
  {
    seq(to - from, i requires 0 <= i => Event(p, from + i))
  }

  /** The last min(n, cap) of n events. */
  function LastOnes(p: Pid, n: nat, cap: nat): seq<Event> {
    Numbered(p, if n <= cap then 0 else n - cap, n)
  }

  /** The first min(n, cap) of n events. */
  function FirstOnes(p: Pid, n: nat, cap: nat): seq<Event> {
    Numbered(p, 0, if n <= cap then n else cap)
  }

  ghost predicate KeepsLast(s: State, p: Pid) {
    var n := Started(s, p);
    && s.policy.DropOldest? && 0 < s.cap
    && (!At(s, p).Idle? ==> n > s.cap && At(s, p).event == Event(p, n - 1))
    && (match At(s, p)
        case Slow(_) => s.queue == Numbered(p, n - 1 - s.cap, n - 1)
        case Locked(_) => s.queue == Numbered(p, n - 1 - s.cap, n - 1)
        case Popped(_, _) => s.queue == Numbered(p, n - s.cap, n - 1)
        case _ => s.queue == LastOnes(p, n, s.cap))
  }

  ghost predicate KeepsFirst(s: State, p: Pid) {
    && s.policy.DropNewest? && 0 < s.cap
    && (At(s, p).Idle? || At(s, p).Counting?)
    && s.queue == FirstOnes(p, Started(s, p), s.cap)
  }

  lemma KeepsLastByOffer(s: State, p: Pid)
    requires KeepsLast(s, p) && At(s, p).Idle?
    ensures KeepsLast(Offer(s, p), p)
  {
  }

  lemma KeepsLastByAct(s: State, p: Pid)
    requires KeepsLast(s, p)
    ensures KeepsLast(Act(s, p), p)
  {
  }

  lemma KeepsFirstByOffer(s: State, p: Pid)
    requires KeepsFirst(s, p) && At(s, p).Idle?
    ensures KeepsFirst(Offer(s, p), p)
  {
  }

  lemma {:induction false} KeepsLastAlways(s: State, actions: seq<Action>, p: Pid)
    requires KeepsLast(s, p) && OnlyPublisher(actions, p) && NoHandling(actions)
    ensures KeepsLast(Run(s, actions), p)
    decreases |actions|
  {
    if actions == [] {
    } else {
      var a := actions[0];
      assert a in actions;
      if a.Proceed? {
        KeepsLastByAct(s, p);
      } else if At(s, p).Idle? {
        KeepsLastByOffer(s, p);
      }
      KeepsLastAlways(Next(s, a), actions[1..], p);
    }
  }

  lemma {:induction false} KeepsFirstAlways(s: State, actions: seq<Action>, p: Pid)
    requires KeepsFirst(s, p) && OnlyPublisher(actions, p) && NoHandling(actions)
    ensures KeepsFirst(Run(s, actions), p)
    decreases |actions|
  {
    if actions == [] {
    } else {
      var a := actions[0];
      assert a in actions;
      if a.Deliver? && At(s, p).Idle? {
        KeepsFirstByOffer(s, p);
      }
      KeepsFirstAlways(Next(s, a), actions[1..], p);
    }
  }

  /** With one publisher and no handling, after n whole deliveries the queue holds
      exactly the last min(n, capacity) events under drop-oldest and exactly the first
      under drop-newest. */
  lemma WhichEventsStay(policy: Policy, bufferSize: int, actions: seq<Action>, p: Pid)
    requires OnlyPublisher(actions, p) && NoHandling(actions)
    requires At(Run(Empty(policy, bufferSize), actions), p).Idle?
    ensures var s := Run(Empty(policy, bufferSize), actions);
            var cap := if bufferSize <= 0 then 256 else bufferSize;
            s.queue == if policy.DropOldest? then LastOnes(p, Started(s, p), cap)
                       else FirstOnes(p, Started(s, p), cap)
  {
    SettingsStay(Empty(policy, bufferSize), actions);
    if policy.DropOldest? {
      KeepsLastAlways(Empty(policy, bufferSize), actions, p);
    } else {
      KeepsFirstAlways(Empty(policy, bufferSize), actions, p);
    }
  }

  // ----- an uninterrupted delivery -------------------------------------------------------------

  /** What a whole delivery does to the queue when nobody interferes. */
  function Offered<T>(policy: Policy, cap: nat, queue: seq<T>, ev: T): seq<T>
    requires 0 < cap
  {
    if |queue| < cap then queue + [ev] else if policy.DropNewest? then queue else queue[1..] + [ev]
  }

  function Five(p: Pid): seq<Action> {
    [Proceed(p), Proceed(p), Proceed(p), Proceed(p), Proceed(p)]
  }

  function Alone(p: Pid): seq<Action> { [Deliver(p)] + Five(p) }

  lemma RunStep(s: State, a: Action, rest: seq<Action>)
    ensures Run(s, [a] + rest) == Run(Next(s, a), rest)
  {
    assert ([a] + rest)[1..] == rest;
  }

  lemma RunFive(s: State, p: Pid)
    ensures Run(s, Five(p)) == Act(Act(Act(Act(Act(s, p), p), p), p), p)
  {
    var a := Proceed(p);
    RunStep(s, a, [a, a, a, a]);
    RunStep(Act(s, p), a, [a, a, a]);
    RunStep(Act(Act(s, p), p), a, [a, a]);
    RunStep(Act(Act(Act(s, p), p), p), a, [a]);
    RunStep(Act(Act(Act(Act(s, p), p), p), p), a, []);
    assert [a] + [a, a, a, a] == [a, a, a, a, a] && [a] + [a, a, a] == [a, a, a, a];
    assert [a] + [a, a] == [a, a, a] && [a] + [a] == [a, a] && [a] + [] == [a];
  }

  /** The slow path, run through. */
  lemma SlowPathAlone(s: State, p: Pid, ev: Event)
    requires At(s, p) == Slow(ev) && s.lock.None? && s.cap > 0 && |s.queue| == s.cap
    ensures var s' := Act(Act(Act(Act(Act(s, p), p), p), p), p);
            && s'.queue == s.queue[1..] + [ev] && s'.dropped == s.dropped + 1
            && At(s', p).Idle? && s'.lock.None? && s'.answers == s.answers + [Answer(ev, true)]
  {
    var s1 := Lock(s, p, ev);
    var s2 := Pop(s1, p, ev);
    var s3 := Retry(s2, p, ev, true);
    var s4 := Unlock(s3, p, ev, true);
    assert Act(s, p) == s1 && Act(s1, p) == s2 && Act(s2, p) == s3 && Act(s3, p) == s4;
  }

  /** The first select and the count of a refused event, run through. */
  lemma NoSlowPathAlone(s: State, p: Pid)
    requires At(s, p).Idle? && s.lock.None? && (|s.queue| < s.cap || s.policy.DropNewest?)
    ensures var s0, room, ev := Offer(s, p), |s.queue| < s.cap, Event(p, Started(s, p));
            var s' := Act(s0, p);
            && s'.queue == (if room then s.queue + [ev] else s.queue)
            && s'.dropped == s.dropped + (if room then 0 else 1)
            && At(s', p).Idle? && s'.lock.None? && s'.answers == s.answers + [Answer(ev, room)]
  {
    var ev := Event(p, Started(s, p));
    assert At(Offer(s, p), p) == if |s.queue| < s.cap then Idle else Counting(ev, false);
  }

  lemma IdleStays(s: State, p: Pid)
    requires At(s, p).Idle?
    ensures Act(Act(Act(Act(s, p), p), p), p) == s
  {
  }

  /** The steps of one delivery, run through, do what a single call does: the queue is
      the one offered, the counter goes up exactly when the queue was full, and the
      answer is whether the event went in. */
  lemma UninterruptedDelivery(s: State, p: Pid)
    requires At(s, p).Idle? && s.lock.None? && 0 < s.cap && |s.queue| <= s.cap
    ensures var ev, s' := Event(p, Started(s, p)), Run(s, Alone(p));
            && s'.queue == Offered(s.policy, s.cap, s.queue, ev)
            && s'.dropped == s.dropped + (if |s.queue| < s.cap then 0 else 1)
            && At(s', p).Idle? && s'.lock.None?
            && s'.answers == s.answers + [Answer(ev, |s.queue| < s.cap || s.policy.DropOldest?)]
  {
    var s0 := Offer(s, p);
    RunStep(s, Deliver(p), Five(p));
    RunFive(s0, p);
    if |s.queue| < s.cap || s.policy.DropNewest? {
      NoSlowPathAlone(s, p);
      IdleStays(Act(s0, p), p);
    } else {
      SlowPathAlone(s0, p, Event(p, Started(s, p)));
    }
  }

  // ----- how far the counter can be off ------------------------------------------------------------

  function Repeat(a: Action, n: nat): seq<Action> {
    if n == 0 then [] else [a] + Repeat(a, n - 1)
  }

  lemma {:induction false} RunAppend(s: State, a: seq<Action>, b: seq<Action>)
    ensures Run(s, a + b) == Run(Run(s, a), b)
    decreases |a|
  {
    if a == [] {
      assert a + b == b;
    } else {
      assert (a + b)[1..] == a[1..] + b;
      RunAppend(Next(s, a[0]), a[1..], b);
    }
  }

  /** Nothing lost or counted yet, n events queued, and only publisher 0 perhaps on its
      way. */
  ghost predicate Clean(s: State, cap: nat, n: nat) {
    && s.policy.DropOldest? && s.cap == cap > 0 && |s.queue| == n && s.lock.None?
    && s.dropped == 0 && Lost(s) == 0
    && forall p: Pid :: p != 0 ==> At(s, p).Idle?
  }

  lemma {:induction false} Fill(s: State, cap: nat, n: nat, k: nat)
    requires Clean(s, cap, n) && At(s, 0).Idle? && n + k <= cap
    ensures var s' := Run(s, Repeat(Deliver(0), k)); Clean(s', cap, n + k) && At(s', 0).Idle?
    decreases k
  {
    if k == 0 {
    } else {
      var s1 := Offer(s, 0);
      OfferMovesOne(s, 0);
      assert At(s1, 0).Idle? && Clean(s1, cap, n + 1);
      RunStep(s, Deliver(0), Repeat(Deliver(0), k - 1));
      Fill(s1, cap, n + 1, k - 1);
    }
  }

  lemma {:induction false} Drain(s: State, cap: nat, n: nat)
    requires Clean(s, cap, n)
    ensures var s' := Run(s, Repeat(Handle, n)); Clean(s', cap, 0) && At(s', 0) == At(s, 0)
    decreases n
  {
    if n == 0 {
    } else {
      var s1 := Take(s);
      assert forall p: Pid :: At(s1, p) == At(s, p);
      RunStep(s, Handle, Repeat(Handle, n - 1));
      Drain(s1, cap, n - 1);
    }
  }

  /** The full queue, and one more delivery stuck behind it. */
  function Sticking(cap: nat): seq<Action> { Repeat(Deliver(0), cap) + [Deliver(0)] }

  lemma GettingStuck(bufferSize: int)
    ensures var cap := Capacity(bufferSize);
            var s := Run(Empty(DropOldest, bufferSize), Sticking(cap));
            Clean(s, cap, cap) && At(s, 0).Slow?
  {
    var s0, cap := Empty(DropOldest, bufferSize), Capacity(bufferSize);
    assert forall p: Pid :: At(s0, p) == Idle;
    Fill(s0, cap, 0, cap);
    RunAppend(s0, Repeat(Deliver(0), cap), [Deliver(0)]);
    var s1 := Run(s0, Repeat(Deliver(0), cap));
    RunStep(s1, Deliver(0), []);
    assert [Deliver(0)] + [] == [Deliver(0)];
    OfferMovesOne(s1, 0);
  }

  lemma FiveMoveOne(s: State, p: Pid)
    ensures OnlyMoves(s, Run(s, Five(p)), p)
  {
    RunFive(s, p);
    ActMovesOne(s, p);
    ActMovesOne(Act(s, p), p);
    ActMovesOne(Act(Act(s, p), p), p);
    ActMovesOne(Act(Act(Act(s, p), p), p), p);
    ActMovesOne(Act(Act(Act(Act(s, p), p), p), p), p);
  }

  /** The slow path behind a queue that was emptied in the meantime. */
  lemma SlowPathFindsRoom(s: State, cap: nat)
    requires Clean(s, cap, 0) && At(s, 0).Slow?
    ensures var s' := Run(s, Five(0)); Quiescent(s') && s'.dropped == 1 && Lost(s') == 0
  {
    var ev := At(s, 0).event;
    RunFive(s, 0);
    var s1 := Lock(s, 0, ev);
    var s2 := Pop(s1, 0, ev);
    assert Act(s, 0) == s1 && Act(s1, 0) == s2 && At(s2, 0) == Popped(ev, false);
    var s3 := Retry(s2, 0, ev, false);
    var s4 := Unlock(s3, 0, ev, true);
    assert Act(s2, 0) == s3 && Act(s3, 0) == s4;
    assert At(Act(s4, 0), 0).Idle?;
    FiveMoveOne(s, 0);
  }

  /** The rest of a slow path whose room was taken by another publisher. */
  lemma SlowPathFindsNoRoom(s: State, ev: Event)
    requires At(s, 0) == Popped(ev, true) && |s.queue| >= s.cap && (forall p: Pid :: p != 0 ==> At(s, p).Idle?)
    ensures var s' := Run(s, Five(0));
            Quiescent(s') && s'.dropped == s.dropped + 1 && Lost(s') == Lost(s) + 1
  {
    RunFive(s, 0);
    var s1 := Retry(s, 0, ev, true);
    var s2 := Unlock(s1, 0, ev, false);
    assert Act(s, 0) == s1 && Act(s1, 0) == s2;
    var s3 := Count(s2, 0, ev, false);
    assert Act(s2, 0) == s3 && At(s3, 0).Idle?;
    FiveMoveOne(s, 0);
  }

  /** Locked and popped, before another publisher comes. */
  lemma EvictsAndIsOvertaken(s: State, cap: nat)
    requires Clean(s, cap, cap) && At(s, 0).Slow?
    ensures var s' := Run(s, [Proceed(0)] + ([Proceed(0)] + [Deliver(1)]));
            && At(s', 0) == Popped(At(s, 0).event, true) && (forall p: Pid :: p != 0 ==> At(s', p).Idle?)
            && |s'.queue| == cap == s'.cap && s'.dropped == 0 && Lost(s') == 1
  {
    var ev := At(s, 0).event;
    RunStep(s, Proceed(0), [Proceed(0)] + [Deliver(1)]);
    var s1 := Lock(s, 0, ev);
    RunStep(s1, Proceed(0), [Deliver(1)]);
    var s2 := Pop(s1, 0, ev);
    assert Act(s, 0) == s1 && Act(s1, 0) == s2;
    ActMovesOne(s, 0);
    ActMovesOne(s1, 0);
    RunStep(s2, Deliver(1), []);
    assert [Deliver(1)] + [] == [Deliver(1)];
    OfferMovesOne(s2, 1);
  }

  /** For every buffer size, from an empty dispatcher: the queue fills, a delivery
      sticks, the handler empties the queue before the slow path goes on; in the end
      nobody delivers, nothing is lost, and one drop is counted. */
  lemma CountedWithoutLoss(bufferSize: int)
    ensures exists actions :: var s := Run(Empty(DropOldest, bufferSize), actions);
                              Quiescent(s) && s.dropped == 1 && Lost(s) == 0
  {
    var s0, cap := Empty(DropOldest, bufferSize), Capacity(bufferSize);
    GettingStuck(bufferSize);
    var s1 := Run(s0, Sticking(cap));
    Drain(s1, cap, cap);
    SlowPathFindsRoom(Run(s1, Repeat(Handle, cap)), cap);
    RunAppend(s1, Repeat(Handle, cap), Five(0));
    RunAppend(s0, Sticking(cap), Repeat(Handle, cap) + Five(0));
    assert Run(s0, Sticking(cap) + (Repeat(Handle, cap) + Five(0))).dropped == 1;
  }

  /** For every buffer size, from an empty dispatcher: a second publisher fills the room
      that the slow path of the first made; in the end nobody delivers, two events are
      lost, and one drop is counted. */
  lemma CountedOnceLostTwice(bufferSize: int)
    ensures exists actions :: var s := Run(Empty(DropOldest, bufferSize), actions);
                              Quiescent(s) && s.dropped == 1 && Lost(s) == 2
  {
    var s0, cap := Empty(DropOldest, bufferSize), Capacity(bufferSize);
    var overtaken := [Proceed(0)] + ([Proceed(0)] + [Deliver(1)]);
    GettingStuck(bufferSize);
    var s1 := Run(s0, Sticking(cap));
    EvictsAndIsOvertaken(s1, cap);
    SlowPathFindsNoRoom(Run(s1, overtaken), At(s1, 0).event);
    RunAppend(s1, overtaken, Five(0));
    RunAppend(s0, Sticking(cap), overtaken + Five(0));
    assert Run(s0, Sticking(cap) + (overtaken + Five(0))).dropped == 1;
  }

  /** In every run that comes to rest, the counter is the number of lost events. */
  ghost predicate CounterCountsLosses(policy: Policy, bufferSize: int) {
    forall actions :: Quiescent(Run(Empty(policy, bufferSize), actions)) ==>
      Lost(Run(Empty(policy, bufferSize), actions)) == Run(Empty(policy, bufferSize), actions).dropped
  }

  /** The counter counts the losses exactly under drop-newest, for every buffer size. */
  lemma CounterCountsLossesExactly(policy: Policy, bufferSize: int)
    ensures CounterCountsLosses(policy, bufferSize) <==> policy.DropNewest?
  {
    if policy.DropNewest? {
      forall actions | Quiescent(Run(Empty(policy, bufferSize), actions))
        ensures Lost(Run(Empty(policy, bufferSize), actions)) == Run(Empty(policy, bufferSize), actions).dropped
      {
        LossesAgainstTheCounter(policy, bufferSize, actions);
      }
    } else {
      CountedWithoutLoss(bufferSize);
    }
  }
}
