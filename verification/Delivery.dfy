/** EventDispatcher.deliver and recordDrop of internal/antivpn/dispatcher.go for one
    handler, over every interleaving of publishers and the handler's goroutine. Each
    step is one channel operation, one lock, one unlock, or one locked counter update. */
module Delivery {
  import opened Text

  type Pid = nat

  datatype Policy = DropOldest | DropNewest

  /** The events of one publisher are numbered in the order it delivers them. */
  datatype Event = Event(source: Pid, number: nat)

  /** Where a publisher stands inside deliver. */
  datatype Pc =
    | Idle
    | Slow(event: Event)
    | Locked(event: Event)
    | Popped(event: Event, evicted: bool)
    | Settled(event: Event, ok: bool)
    | Counting(event: Event, ok: bool)

  datatype Answer = Answer(event: Event, ok: bool)

  /** The entry (queue, dropMu, dropped), the publishers, and what happened so far:
      sent in channel order, fates of the sent events that left the queue (true when
      the handler took them), answers of deliver. spared and doubled count the slow
      deliveries that lost no event and that lost two. */
  datatype State = State(
    policy: Policy,
    cap: nat,
    queue: seq<Event>,
    dropped: nat,
    lock: Option<Pid>,
    pcs: map<Pid, Pc>,
    started: map<Pid, nat>,
    sent: seq<Event>,
    fates: seq<bool>,
    handled: seq<Event>,
    evicted: seq<Event>,
    rejected: seq<Event>,
    answers: seq<Answer>,
    spared: nat,
    doubled: nat)

  /** NewEventDispatcher replaces a size that is not positive. */
  function Capacity(bufferSize: int): (cap: nat) {
    if bufferSize <= 0 then 256 else bufferSize
  }

  function Empty(policy: Policy, bufferSize: int): State {
    State(policy, Capacity(bufferSize), [], 0, None, map[], map[], [], [], [], [], [], [], 0, 0)
  }

  function At(s: State, p: Pid): Pc { if p in s.pcs then s.pcs[p] else Idle }

  function Started(s: State, p: Pid): nat { if p in s.started then s.started[p] else 0 }

  function Go(s: State, p: Pid, pc: Pc): State { s.(pcs := s.pcs[p := pc]) }

  // ----- the steps ---------------------------------------------------------------

  function Send(s: State, ev: Event): State { s.(queue := s.queue + [ev], sent := s.sent + [ev]) }

  /** A new event and the first select. */
  function Offer(s: State, p: Pid): State {
    var ev := Event(p, Started(s, p));
    var s1 := s.(started := s.started[p := Started(s, p) + 1]);
    if |s.queue| < s.cap then Send(s1, ev).(answers := s.answers + [Answer(ev, true)])
    else if s.policy.DropNewest? then Go(s1.(rejected := s.rejected + [ev]), p, Counting(ev, false))
    else Go(s1, p, Slow(ev))
  }

  function Lock(s: State, p: Pid, ev: Event): State {
    if s.lock.None? then Go(s.(lock := Some(p)), p, Locked(ev)) else s
  }

  function Pop(s: State, p: Pid, ev: Event): State {
    if s.queue == [] then Go(s, p, Popped(ev, false))
    else
      var popped := s.(queue := s.queue[1..], evicted := s.evicted + [s.queue[0]], fates := s.fates + [false]);
      Go(popped, p, Popped(ev, true))
  }

  function Retry(s: State, p: Pid, ev: Event, evicted: bool): State {
    if |s.queue| < s.cap then
      Go(Send(s, ev).(spared := s.spared + if evicted then 0 else 1), p, Settled(ev, true))
    else
      Go(s.(rejected := s.rejected + [ev], doubled := s.doubled + if evicted then 1 else 0), p, Settled(ev, false))
  }

  function Unlock(s: State, p: Pid, ev: Event, ok: bool): State {
    Go(s.(lock := None), p, Counting(ev, ok))
  }

  function Count(s: State, p: Pid, ev: Event, ok: bool): State {
    if s.lock.None? then Go(s.(dropped := s.dropped + 1, answers := s.answers + [Answer(ev, ok)]), p, Idle) else s
  }

  /** The handler's goroutine takes the head of the queue. */
  function Take(s: State): State {
    if s.queue == [] then s
    else s.(queue := s.queue[1..], handled := s.handled + [s.queue[0]], fates := s.fates + [true])
  }

  datatype Action = Deliver(p: Pid) | Proceed(p: Pid) | Handle

  function Act(s: State, p: Pid): State {
    match At(s, p)
    case Idle => s
    case Slow(ev) => Lock(s, p, ev)
    case Locked(ev) => Pop(s, p, ev)
    case Popped(ev, evicted) => Retry(s, p, ev, evicted)
    case Settled(ev, ok) => Unlock(s, p, ev, ok)
    case Counting(ev, ok) => Count(s, p, ev, ok)
  }

  function Next(s: State, a: Action): State {
    match a
    case Deliver(p) => if At(s, p).Idle? then Offer(s, p) else s
    case Proceed(p) => Act(s, p)
    case Handle => Take(s)
  }

  function Run(s: State, actions: seq<Action>): State
    decreases |actions|
  {
    if actions == [] then s else Run(Next(s, actions[0]), actions[1..])
  }

  /** Only p moved. */
  ghost predicate OnlyMoves(s: State, s': State, p: Pid) {
    forall q: Pid :: q != p ==> At(s', q) == At(s, q)
  }

  lemma GoMovesOne(s: State, s': State, p: Pid, pc: Pc)
    requires s'.pcs == s.pcs[p := pc]
    ensures OnlyMoves(s, s', p)
  {
  }

  lemma ActMovesOne(s: State, p: Pid)
    ensures OnlyMoves(s, Act(s, p), p)
  {
    match At(s, p) {
      case Idle =>
      case Slow(ev) =>
        if s.lock.None? {
          GoMovesOne(s, Lock(s, p, ev), p, Locked(ev));
        }
      case Locked(ev) => GoMovesOne(s, Pop(s, p, ev), p, Popped(ev, s.queue != []));
      case Popped(ev, evicted) => GoMovesOne(s, Retry(s, p, ev, evicted), p, Settled(ev, |s.queue| < s.cap));
      case Settled(ev, ok) => GoMovesOne(s, Unlock(s, p, ev, ok), p, Counting(ev, ok));
      case Counting(ev, ok) =>
        if s.lock.None? {
          GoMovesOne(s, Count(s, p, ev, ok), p, Idle);
        }
    }
  }

  lemma OfferMovesOne(s: State, p: Pid)
    ensures OnlyMoves(s, Offer(s, p), p)
    ensures At(Offer(s, p), p) == At(s, p) || At(Offer(s, p), p).Slow? || At(Offer(s, p), p).Counting?
  {
  }

  // ----- the queue is what was sent and has not left -------------------------------

  /** The sent events with a given fate. */
  function Select(sent: seq<Event>, fates: seq<bool>, fate: bool): seq<Event>
    requires |fates| <= |sent|
  {
    if fates == [] then []
    else
      var n := |fates| - 1;
      Select(sent, fates[..n], fate) + if fates[n] == fate then [sent[n]] else []
  }

  lemma {:induction false} SelectGrows(sent: seq<Event>, ev: Event, fates: seq<bool>, fate: bool)
    requires |fates| <= |sent|
    ensures Select(sent + [ev], fates, fate) == Select(sent, fates, fate)
  {
    if fates == [] {
    } else {
      SelectGrows(sent, ev, fates[..|fates| - 1], fate);
    }
  }

  lemma SelectSnoc(sent: seq<Event>, fates: seq<bool>, next: bool, fate: bool)
    requires |fates| < |sent|
    ensures Select(sent, fates + [next], fate) ==
            Select(sent, fates, fate) + if next == fate then [sent[|fates|]] else []
  {
    assert (fates + [next])[..|fates|] == fates;
  }

  ghost predicate InOrder(s: State) {
    && |s.queue| <= s.cap && s.cap > 0
    && |s.fates| <= |s.sent| && s.queue == s.sent[|s.fates|..]
    && s.handled == Select(s.sent, s.fates, true)
    && s.evicted == Select(s.sent, s.fates, false)
  }

  lemma OrderKeptBySend(s: State, ev: Event)
    requires InOrder(s) && |s.queue| < s.cap
    ensures InOrder(Send(s, ev))
  {
    SelectGrows(s.sent, ev, s.fates, true);
    SelectGrows(s.sent, ev, s.fates, false);
  }

  lemma OrderKeptByLeave(s: State, s': State, fate: bool)
    requires InOrder(s) && s.queue != [] && s'.cap == s.cap && s'.sent == s.sent
    requires s'.queue == s.queue[1..] && s'.fates == s.fates + [fate]
    requires s'.handled == s.handled + if fate then [s.queue[0]] else []
    requires s'.evicted == s.evicted + if fate then [] else [s.queue[0]]
    ensures InOrder(s')
  {
    SelectSnoc(s.sent, s.fates, fate, true);
    SelectSnoc(s.sent, s.fates, fate, false);
  }

  lemma OrderKept(s: State, a: Action)
    requires InOrder(s)
    ensures InOrder(Next(s, a))
  {
    if a.Handle? {
      if s.queue != [] {
        OrderKeptByLeave(s, Take(s), true);
      }
    } else if a.Deliver? {
      if |s.queue| < s.cap {
        OrderKeptBySend(s, Event(a.p, Started(s, a.p)));
      }
    } else {
      match At(s, a.p) {
        case Locked(ev) =>
          if s.queue != [] {
            OrderKeptByLeave(s, Pop(s, a.p, ev), false);
          }
        case Popped(ev, _) =>
          if |s.queue| < s.cap {
            OrderKeptBySend(s, ev);
          }
        case _ =>
      }
    }
  }

  // ----- every delivery is accounted for exactly once ----------------------------------

  predicate Undecided(pc: Pc) { pc.Slow? || pc.Locked? || pc.Popped? }

  /** A publisher works on the last event it numbered. */
  ghost predicate OwnEvents(s: State) {
    forall p: Pid :: !At(s, p).Idle? ==> Started(s, p) > 0 && At(s, p).event == Event(p, Started(s, p) - 1)
  }

  lemma OwnEventsKept(s: State, a: Action)
    requires OwnEvents(s)
    ensures OwnEvents(Next(s, a))
  {
    match a {
      case Deliver(p) => OfferMovesOne(s, p);
      case Proceed(p) =>
        ActMovesOne(s, p);
        assert !At(Act(s, p), p).Idle? ==> !At(s, p).Idle? && At(Act(s, p), p).event == At(s, p).event;
        assert forall q: Pid :: Started(Act(s, p), q) == Started(s, q);
      case Handle =>
        assert forall p: Pid :: At(Take(s), p) == At(s, p);
    }
  }

  function Pending(s: State, e: Event): nat {
    if Undecided(At(s, e.source)) && At(s, e.source).event == e then 1 else 0
  }

  /** How often an event occurs among the handled, the queued, the evicted, the
      rejected and those still being delivered. */
  function Places(s: State, e: Event): nat {
    multiset(s.handled)[e] + multiset(s.queue)[e] + multiset(s.evicted)[e] + multiset(s.rejected)[e] + Pending(s, e)
  }

  ghost predicate PlacedOnce(s: State, e: Event) {
    Places(s, e) == if e.number < Started(s, e.source) then 1 else 0
  }

  ghost predicate Accounted(s: State) {
    forall e: Event :: PlacedOnce(s, e)
  }

  lemma HeadAndTail(q: seq<Event>)
    requires q != []
    ensures multiset(q) == multiset{q[0]} + multiset(q[1..])
  {
    assert q == [q[0]] + q[1..];
  }

  lemma PlacedBySend(s: State, p: Pid, e: Event)
    requires At(s, p).Idle? && |s.queue| < s.cap && PlacedOnce(s, e)
    ensures PlacedOnce(Offer(s, p), e)
  {
    var ev := Event(p, Started(s, p));
    assert multiset(s.queue + [ev]) == multiset(s.queue) + multiset{ev};
  }

  lemma PlacedByFullQueue(s: State, p: Pid, e: Event)
    requires At(s, p).Idle? && |s.queue| >= s.cap && PlacedOnce(s, e)
    ensures PlacedOnce(Offer(s, p), e)
  {
    var s', ev := Offer(s, p), Event(p, Started(s, p));
    assert multiset(s.rejected + [ev]) == multiset(s.rejected) + multiset{ev};
    assert e.source != p ==> At(s', e.source) == At(s, e.source);
  }

  lemma PlacedByRetry(s: State, p: Pid, ev: Event, evicted: bool, e: Event)
    requires At(s, p) == Popped(ev, evicted) && ev.source == p
    ensures Places(Retry(s, p, ev, evicted), e) == Places(s, e)
  {
    assert multiset(s.queue + [ev]) == multiset(s.queue) + multiset{ev};
    assert multiset(s.rejected + [ev]) == multiset(s.rejected) + multiset{ev};
    assert e.source != p ==> At(Retry(s, p, ev, evicted), e.source) == At(s, e.source);
  }

  lemma PlacedByPop(s: State, p: Pid, ev: Event, e: Event)
    requires At(s, p) == Locked(ev)
    ensures Places(Pop(s, p, ev), e) == Places(s, e)
  {
    assert e.source != p ==> At(Pop(s, p, ev), e.source) == At(s, e.source);
    if s.queue != [] {
      HeadAndTail(s.queue);
      assert multiset(s.evicted + [s.queue[0]]) == multiset(s.evicted) + multiset{s.queue[0]};
    }
  }

  lemma PlacedByTake(s: State, e: Event)
    ensures Places(Take(s), e) == Places(s, e)
  {
    if s.queue != [] {
      HeadAndTail(s.queue);
      assert multiset(s.handled + [s.queue[0]]) == multiset(s.handled) + multiset{s.queue[0]};
    }
  }

  lemma PlacedByOthers(s: State, p: Pid, e: Event)
    requires !At(s, p).Popped? && !At(s, p).Locked?
    ensures Places(Act(s, p), e) == Places(s, e)
  {
    ActMovesOne(s, p);
  }

  lemma PlacedByOffer(s: State, p: Pid, e: Event)
    requires At(s, p).Idle? && PlacedOnce(s, e)
    ensures PlacedOnce(Offer(s, p), e)
  {
    if |s.queue| < s.cap {
      PlacedBySend(s, p, e);
    } else {
      PlacedByFullQueue(s, p, e);
    }
  }

  lemma PlacedByAct(s: State, p: Pid, e: Event)
    requires OwnEvents(s)
    ensures Places(Act(s, p), e) == Places(s, e)
  {
    match At(s, p) {
      case Locked(ev) => PlacedByPop(s, p, ev, e);
      case Popped(ev, evicted) =>
        assert ev.source == p;
        PlacedByRetry(s, p, ev, evicted, e);
      case _ => PlacedByOthers(s, p, e);
    }
  }

  lemma ActStartsNothing(s: State, p: Pid)
    ensures Act(s, p).started == s.started
  {
  }

  lemma PlacedKept(s: State, a: Action, e: Event)
    requires PlacedOnce(s, e) && OwnEvents(s)
    ensures PlacedOnce(Next(s, a), e)
  {
    match a {
      case Handle => PlacedByTake(s, e);
      case Deliver(p) =>
        if At(s, p).Idle? {
          PlacedByOffer(s, p, e);
        }
      case Proceed(p) =>
        PlacedByAct(s, p, e);
        ActStartsNothing(s, p);
    }
  }

  lemma AccountedKept(s: State, a: Action)
    requires Accounted(s) && OwnEvents(s)
    ensures Accounted(Next(s, a))
  {
    forall e: Event
      ensures PlacedOnce(Next(s, a), e)
    {
      PlacedKept(s, a, e);
    }
  }

  /** deliver answers true for the events that were sent and false for the rejected. */
  ghost predicate Truthful(s: State) {
    && (forall r :: r in s.answers ==> if r.ok then r.event in s.sent else r.event in s.rejected)
    && (forall p: Pid :: At(s, p).Settled? || At(s, p).Counting? ==>
          if At(s, p).ok then At(s, p).event in s.sent else At(s, p).event in s.rejected)
  }

  lemma TruthKeptByOffer(s: State, p: Pid)
    requires Truthful(s) && At(s, p).Idle?
    ensures Truthful(Offer(s, p))
  {
    OfferMovesOne(s, p);
    var s' := Offer(s, p);
    assert forall r :: r in s'.answers ==>
             r in s.answers || (r == Answer(Event(p, Started(s, p)), true) && r.event in s'.sent);
    assert At(s', p).Counting? ==> At(s', p).event in s'.rejected && !At(s', p).ok;
  }

  lemma TruthKeptByRetry(s: State, p: Pid, ev: Event, evicted: bool)
    requires Truthful(s) && At(s, p) == Popped(ev, evicted)
    ensures Truthful(Retry(s, p, ev, evicted))
  {
    var s' := Retry(s, p, ev, evicted);
    assert OnlyMoves(s, s', p) && s'.answers == s.answers;
    assert if At(s', p).ok then At(s', p).event in s'.sent else At(s', p).event in s'.rejected;
  }

  lemma TruthKeptByOthers(s: State, p: Pid)
    requires Truthful(s) && !At(s, p).Popped?
    ensures Truthful(Act(s, p))
  {
    ActMovesOne(s, p);
    var s' := Act(s, p);
    assert s'.sent == s.sent && s'.rejected == s.rejected;
    assert forall r :: r in s'.answers ==>
             r in s.answers || (At(s, p).Counting? && r == Answer(At(s, p).event, At(s, p).ok));
  }

  lemma TruthKept(s: State, a: Action)
    requires Truthful(s)
    ensures Truthful(Next(s, a))
  {
    match a {
      case Deliver(p) =>
        if At(s, p).Idle? {
          TruthKeptByOffer(s, p);
        }
      case Proceed(p) =>
        if At(s, p).Popped? {
          TruthKeptByRetry(s, p, At(s, p).event, At(s, p).evicted);
        } else {
          TruthKeptByOthers(s, p);
        }
      case Handle =>
        assert forall p: Pid :: At(Take(s), p) == At(s, p);
    }
  }

  // ----- each publisher's events stay in order --------------------------------------------

  ghost predicate Ordered(events: seq<Event>) {
    forall i, j :: 0 <= i < j < |events| && events[i].source == events[j].source ==> events[i].number < events[j].number
  }

  /** What was sent lies behind what is being delivered. */
  predicate Behind(s: State, e: Event) {
    e.number + (if Undecided(At(s, e.source)) then 1 else 0) < Started(s, e.source)
  }

  ghost predicate SentInOrder(s: State) {
    Ordered(s.sent) && forall e :: e in s.sent ==> Behind(s, e)
  }

  /** A step that sends nothing keeps the order when it starts or decides an event. */
  lemma SentInOrderByQuietStep(s: State, s': State, p: Pid)
    requires SentInOrder(s) && OnlyMoves(s, s', p) && s'.sent == s.sent
    requires forall q: Pid :: q != p ==> Started(s', q) == Started(s, q)
    requires Started(s', p) - (if Undecided(At(s', p)) then 1 else 0) >=
             Started(s, p) - (if Undecided(At(s, p)) then 1 else 0)
    ensures SentInOrder(s')
  {
    forall e | e in s'.sent
      ensures Behind(s', e)
    {
      assert Behind(s, e);
    }
  }

  /** A step that sends the newest event of p. */
  lemma SentInOrderBySend(s: State, s': State, p: Pid)
    requires SentInOrder(s) && OnlyMoves(s, s', p) && !Undecided(At(s', p))
    requires forall q: Pid :: q != p ==> Started(s', q) == Started(s, q)
    requires Started(s', p) == Started(s, p) + 1 - (if Undecided(At(s, p)) then 1 else 0)
    requires Started(s', p) > 0 && s'.sent == s.sent + [Event(p, Started(s', p) - 1)]
    ensures SentInOrder(s')
  {
    forall e | e in s'.sent
      ensures Behind(s', e)
    {
      assert e in s.sent ==> Behind(s, e);
    }
    forall i, j | 0 <= i < j < |s'.sent| && s'.sent[i].source == s'.sent[j].source
      ensures s'.sent[i].number < s'.sent[j].number
    {
      assert s.sent[i] in s.sent && Behind(s, s.sent[i]);
    }
  }

  lemma SentInOrderByOffer(s: State, p: Pid)
    requires SentInOrder(s) && At(s, p).Idle?
    ensures SentInOrder(Offer(s, p))
  {
    OfferMovesOne(s, p);
    if |s.queue| < s.cap {
      SentInOrderBySend(s, Offer(s, p), p);
    } else {
      SentInOrderByQuietStep(s, Offer(s, p), p);
    }
  }

  lemma SentInOrderByAct(s: State, p: Pid)
    requires SentInOrder(s) && OwnEvents(s)
    ensures SentInOrder(Act(s, p))
  {
    ActMovesOne(s, p);
    if At(s, p).Popped? && |s.queue| < s.cap {
      SentInOrderBySend(s, Act(s, p), p);
    } else {
      SentInOrderByQuietStep(s, Act(s, p), p);
    }
  }

  lemma SentInOrderKept(s: State, a: Action)
    requires SentInOrder(s) && OwnEvents(s)
    ensures SentInOrder(Next(s, a))
  {
    match a {
      case Deliver(p) =>
        if At(s, p).Idle? {
          SentInOrderByOffer(s, p);
        }
      case Proceed(p) => SentInOrderByAct(s, p);
      case Handle =>
        assert OnlyMoves(s, Take(s), 0) && At(Take(s), 0) == At(s, 0);
        SentInOrderByQuietStep(s, Take(s), 0);
    }
  }

  /** a arises from b by leaving events out. */
  ghost predicate IsSubsequence(a: seq<Event>, b: seq<Event>) {
    a == [] || (b != [] &&
                (IsSubsequence(a, b[..|b| - 1])
                 || (a[|a| - 1] == b[|b| - 1] && IsSubsequence(a[..|a| - 1], b[..|b| - 1]))))
  }

  lemma SubsequenceSnoc(a: seq<Event>, b: seq<Event>, e: Event)
    requires IsSubsequence(a, b)
    ensures IsSubsequence(a, b + [e]) && IsSubsequence(a + [e], b + [e])
  {
    assert (b + [e])[..|b|] == b && (a + [e])[..|a|] == a;
  }

  lemma {:induction false} SubsequenceAppend(a: seq<Event>, b: seq<Event>, c: seq<Event>)
    requires IsSubsequence(a, b)
    ensures IsSubsequence(a + c, b + c)
  {
    if c == [] {
      assert a + c == a && b + c == b;
    } else {
      var init := c[..|c| - 1];
      SubsequenceAppend(a, b, init);
      SubsequenceSnoc(a + init, b + init, c[|c| - 1]);
      assert a + c == a + init + [c[|c| - 1]] && b + c == b + init + [c[|c| - 1]];
    }
  }

  lemma {:induction false} SelectIsSubsequence(sent: seq<Event>, fates: seq<bool>, fate: bool)
    requires |fates| <= |sent|
    ensures IsSubsequence(Select(sent, fates, fate), sent[..|fates|])
  {
    if fates == [] {
    } else {
      var n := |fates| - 1;
      SelectIsSubsequence(sent, fates[..n], fate);
      SubsequenceSnoc(Select(sent, fates[..n], fate), sent[..n], sent[n]);
      assert sent[..n + 1] == sent[..n] + [sent[n]];
      assert Select(sent, fates[..n], fate) + [] == Select(sent, fates[..n], fate);
    }
  }

  lemma {:induction false} SubsequenceElements(a: seq<Event>, b: seq<Event>)
    requires IsSubsequence(a, b)
    ensures forall e :: e in a ==> e in b
    decreases |b|
  {
    if a == [] {
    } else {
      if IsSubsequence(a, b[..|b| - 1]) {
        SubsequenceElements(a, b[..|b| - 1]);
      } else {
        SubsequenceElements(a[..|a| - 1], b[..|b| - 1]);
        assert forall e :: e in a ==> e in a[..|a| - 1] || e == a[|a| - 1];
      }
    }
  }

  lemma {:induction false} SubsequenceOrdered(a: seq<Event>, b: seq<Event>)
    requires IsSubsequence(a, b) && Ordered(b)
    ensures Ordered(a)
    decreases |b|
  {
    if a == [] {
    } else {
      var front := b[..|b| - 1];
      if IsSubsequence(a, front) {
        SubsequenceOrdered(a, front);
      } else {
        var init := a[..|a| - 1];
        SubsequenceOrdered(init, front);
        SubsequenceElements(init, front);
        forall i, j | 0 <= i < j < |a| && a[i].source == a[j].source
          ensures a[i].number < a[j].number
        {
          assert a[i] == init[i] && init[i] in front;
          if j < |a| - 1 {
            assert a[j] == init[j];
          }
        }
      }
    }
  }
}
