/** The schedule loop of bundled-addons/defaults/announcer.py with a fixed schedule.
    Times are in microseconds; a wall time counts from a local midnight, without
    daylight-saving changes. Every clock sample is an input. */
module Scheduler {
  import opened Text

  const SECOND: int := 1000000
  const DAY: int := 86400 * SECOND
  const MAX_SLEEP: int := 60 * SECOND

  /** An empty message stands for none. */
  datatype Entry = Daily(target: int, message: string) | Every(period: int, message: string)

  predicate Target(t: int) { 0 <= t < DAY }

  ghost predicate ValidSchedule(schedule: seq<Entry>) {
    forall i :: 0 <= i < |schedule| && schedule[i].Daily? ==> Target(schedule[i].target)
  }

  function Date(wall: int): (date: int)
    ensures date * 86400000000 <= wall < (date + 1) * 86400000000
  {
    wall / DAY
  }

  function TodayTarget(wall: int, target: int): int { Date(wall) * DAY + target }

  lemma DateOf(date: int, tod: int)
    requires 0 <= tod < DAY
    ensures Date(date * DAY + tod) == date
  {
  }

  // ----- when a daily slot is due ------------------------------------------------------

  function SecondsUntilSlot(now: int, target: int, firedToday: bool): int {
    var todays := TodayTarget(now, target);
    if !firedToday && now >= todays then 0
    else
      var next := if now < todays then todays else todays + DAY;
      if next > now then next - now else 0
  }

  predicate SlotDueNow(now: int, target: int, firedToday: bool) {
    !firedToday && now >= TodayTarget(now, target)
  }

  /** The slot is past its time on a date on which it has not fired. */
  predicate Due(wall: int, target: int, last: Option<int>) {
    last != Some(Date(wall)) && wall >= TodayTarget(wall, target)
  }

  /** The slot is due after this wait, and at no instant before. */
  ghost predicate FirstDue(now: int, wait: int, target: int, last: Option<int>) {
    wait >= 0 && Due(now + wait, target, last) && forall w :: now <= w < now + wait ==> !Due(w, target, last)
  }

  /** Within a day the due instants are those from the target on. */
  lemma DueWithinADay(date: int, tod: int, target: int, last: Option<int>)
    requires 0 <= tod < DAY && Target(target)
    ensures Due(date * DAY + tod, target, last) <==> last != Some(date) && tod >= target
  {
    DateOf(date, tod);
  }

  /** No instant of a day before the target, or of a day on which it fired, is due. */
  lemma NotDueBetween(date: int, from: int, to: int, target: int, last: Option<int>)
    requires 0 <= from <= to <= DAY && Target(target)
    requires last == Some(date) || to <= target
    ensures forall w :: date * DAY + from <= w < date * DAY + to ==> !Due(w, target, last)
  {
    forall w | date * DAY + from <= w < date * DAY + to
      ensures !Due(w, target, last)
    {
      DueWithinADay(date, w - date * DAY, target, last);
    }
  }

  /** The one case in which a computed wait is too long: midnight falls between the
      sample of the date and that of the time, the slot fired on the old date and is past
      its time on the new. */
  predicate AcrossMidnight(today: int, wall: int, target: int, last: Option<int>) {
    last == Some(today) && Date(wall) > today && wall >= TodayTarget(wall, target)
  }

  /** The computed wait is the wait to the first due instant, except exactly in that
      case. */
  lemma WaitIsExact(now: int, today: int, target: int, last: Option<int>)
    requires Target(target) && today <= Date(now) && (last.Some? ==> last.value <= today)
    requires last == Some(Date(now)) ==> now >= TodayTarget(now, target)
    ensures FirstDue(now, SecondsUntilSlot(now, target, last == Some(today)), target, last) <==>
            !AcrossMidnight(today, now, target, last)
  {
    var date, tod := Date(now), now % DAY;
    var wait := SecondsUntilSlot(now, target, last == Some(today));
    assert now == date * DAY + tod;
    if tod < target {
      assert wait == target - tod;
      DueWithinADay(date, target, target, last);
      NotDueBetween(date, tod, target, target, last);
    } else if last != Some(today) {
      DueWithinADay(date, tod, target, last);
    } else if date == today {
      assert wait == target + DAY - tod && now + wait == (date + 1) * DAY + target;
      DueWithinADay(date + 1, target, target, last);
      NotDueBetween(date, tod, DAY, target, last);
      NotDueBetween(date + 1, 0, target, target, last);
    } else {
      DueWithinADay(date, tod, target, last);
      assert wait > 0 && Due(now, target, last);
    }
  }

  // ----- the rotation of messages ---------------------------------------------------------

  /** The message at the cursor and the cursor after it. */
  function NextMessage(messages: seq<string>, cursor: nat): (Option<string>, nat) {
    if messages == [] then (None, cursor)
    else (Some(messages[cursor % |messages|]), (cursor + 1) % |messages|)
  }

  /** The messages that so many calls give. */
  function Taken(messages: seq<string>, cursor: nat, calls: nat): seq<Option<string>>
    decreases calls
  {
    if calls == 0 then []
    else [NextMessage(messages, cursor).0] + Taken(messages, NextMessage(messages, cursor).1, calls - 1)
  }

  lemma NextIndex(a: nat, k: nat, n: nat)
    requires n > 0
    ensures ((a + 1) % n + k) % n == (a + (k + 1)) % n
  {
    var q := (a + 1) / n;
    assert (a + 1) % n + k == (a + 1 + k) - q * n;
    ModShift(a + 1 + k, q, n);
  }

  lemma {:induction false} ModShift(x: nat, q: nat, n: nat)
    requires n > 0 && q * n <= x
    ensures (x - q * n) % n == x % n
    decreases q
  {
    if q == 0 {
    } else {
      assert (q - 1) * n == q * n - n;
      ModShift(x, q - 1, n);
      ModMinus(x - (q - 1) * n, n);
    }
  }

  lemma ModMinus(x: nat, n: nat)
    requires 0 < n <= x
    ensures (x - n) % n == x % n
  {
    var q, r := x / n, x % n;
    assert x - n == (q - 1) * n + r;
    assert (x - n) / n == q - 1 by {
      DivUnique(x - n, q - 1, r, n);
    }
  }

  lemma AtLeastOnce(k: int, n: nat)
    requires k >= 1
    ensures k * n >= n
  {
    assert k * n == (k - 1) * n + n;
  }

  lemma SmallMultiple(k: int, n: nat)
    requires k * n < n && -(k * n) < n
    ensures k == 0
  {
    if k >= 1 {
      AtLeastOnce(k, n);
    } else if k <= -1 {
      assert -k * n == -(k * n);
      AtLeastOnce(-k, n);
    }
  }

  lemma DivUnique(x: int, q: int, r: int, n: nat)
    requires 0 <= r < n && x == q * n + r
    ensures x / n == q && x % n == r
  {
    assert (x / n - q) * n == r - x % n;
    SmallMultiple(x / n - q, n);
  }

  /** While the list stays, the messages go round in order. */
  lemma {:induction false} RotationIsFair(messages: seq<string>, cursor: nat, calls: nat, k: nat)
    requires messages != [] && k < calls
    ensures |Taken(messages, cursor, calls)| == calls
    ensures Taken(messages, cursor, calls)[k] == Some(messages[(cursor + k) % |messages|])
    decreases calls
  {
    var next := NextMessage(messages, cursor).1;
    if k > 0 {
      RotationIsFair(messages, next, calls - 1, k - 1);
      NextIndex(cursor, k - 1, |messages|);
    } else if calls > 1 {
      RotationIsFair(messages, next, calls - 1, 0);
    }
  }

  // ----- the state and the firing pass ---------------------------------------------------------

  /** A dispatched announcement: a daily one with the wall time that found it due, a
      periodic one with the monotonic times of its pass and of the dispatch. */
  datatype Fire =
    | DailyFire(index: nat, wall: int, ok: bool)
    | PeriodicFire(index: nat, mono: int, sent: int, ok: bool)

  /** said holds the text of every announcement; lag is the time that the dispatches of
      the present pass have taken so far. */
  datatype State = State(
    lastFired: map<nat, int>,
    deadlines: map<nat, int>,
    cursor: nat,
    fires: seq<Fire>,
    said: seq<string>,
    lag: nat)

  /** How a dispatch turns out, and how long it takes. */
  datatype Dispatch = Dispatch(ok: bool, took: nat)

  function Last(s: State, i: nat): Option<int> { if i in s.lastFired then Some(s.lastFired[i]) else None }

  function Pick(s: State, entry: Entry, messages: seq<string>): (Option<string>, nat) {
    if entry.message != "" then (Some(entry.message), s.cursor) else NextMessage(messages, s.cursor)
  }

  /** The choice of the message, and the dispatch unless there is none. */
  function Announce(s: State, entry: Entry, messages: seq<string>, fire: Fire, took: nat): State {
    var (message, cursor) := Pick(s, entry, messages);
    if message.None? || message.value == "" then s.(cursor := cursor)
    else
      var sent := s.(
        cursor := cursor, fires := s.fires + [fire], said := s.said + [message.value], lag := s.lag + took);
      if fire.DailyFire? && fire.ok then sent.(lastFired := s.lastFired[fire.index := Date(fire.wall)]) else sent
  }

  /** One entry in the firing pass. */
  function FireEntry(s: State, entry: Entry, i: nat, today: int, mono: int, wall: int, messages: seq<string>,
                     d: Dispatch): State {
    match entry
    case Daily(target, _) =>
      if !SlotDueNow(wall, target, Last(s, i) == Some(today)) then s
      else Announce(s, entry, messages, DailyFire(i, wall, d.ok), d.took)
    case Every(period, _) =>
      if i !in s.deadlines || mono < s.deadlines[i] then s
      else
        Announce(s.(deadlines := s.deadlines[i := mono + period]), entry, messages,
                 PeriodicFire(i, mono, mono + s.lag, d.ok), d.took)
  }

  /** What one round of the loop meets: the instant whose date is taken before the sleep,
      the monotonic clock at the head of the firing pass and, entry by entry, the wall
      clock and the dispatch. Time outside dispatches is not counted. */
  datatype Round = Round(planned: int, mono: int, walls: seq<int>, dispatches: seq<Dispatch>, messages: seq<string>)

  /** The first n entries of the firing pass. */
  function FirePass(s: State, schedule: seq<Entry>, r: Round, n: nat): State
    requires n <= |schedule| && |r.walls| == |r.dispatches| == |schedule|
  {
    if n == 0 then s.(lag := 0)
    else
      var i := n - 1;
      FireEntry(FirePass(s, schedule, r, i), schedule[i], i, Date(r.planned), r.mono, r.walls[i], r.messages,
                r.dispatches[i])
  }

  /** Before the first round: one period ahead for every periodic entry. */
  function Started(schedule: seq<Entry>, base: int): State {
    State(map[], map i: nat | i < |schedule| && schedule[i].Every? :: base + schedule[i].period, 0, [], [], 0)
  }

  predicate Fits(schedule: seq<Entry>, rounds: seq<Round>) {
    forall r :: r in rounds ==> |r.walls| == |r.dispatches| == |schedule|
  }

  /** The state after n rounds. */
  function After(schedule: seq<Entry>, base: int, rounds: seq<Round>, n: nat): State
    requires Fits(schedule, rounds) && n <= |rounds|
  {
    if n == 0 then Started(schedule, base)
    else
      assert rounds[n - 1] in rounds;
      FirePass(After(schedule, base, rounds, n - 1), schedule, rounds[n - 1], |schedule|)
  }

  // ----- the clocks only go forward ---------------------------------------------------------------

  /** The wall clock at the end of a round. */
  function End(r: Round): int { if r.walls == [] then r.planned else r.walls[|r.walls| - 1] }

  ghost predicate Forward(r: Round) {
    && (forall i :: 0 <= i < |r.walls| ==> r.planned <= r.walls[i])
    && (forall i, j :: 0 <= i < j < |r.walls| ==> r.walls[i] <= r.walls[j])
  }

  ghost predicate AllForward(rounds: seq<Round>) {
    && (forall k :: 0 <= k < |rounds| ==> Forward(rounds[k]))
    && (forall k :: 0 < k < |rounds| ==>
         End(rounds[k - 1]) <= rounds[k].planned && rounds[k - 1].mono <= rounds[k].mono)
  }

  // ----- daily slots ----------------------------------------------------------------------------------

  predicate Succeeded(f: Fire) { f.DailyFire? && f.ok }

  predicate LaterDate(a: Fire, b: Fire) {
    Succeeded(a) && Succeeded(b) && a.index == b.index ==> Date(a.wall) < Date(b.wall)
  }

  /** Dispatches are at or after their time; successes are of strictly later dates one
      after the other, and none is of a later date than the last one noted. */
  ghost predicate DailySafe(s: State, schedule: seq<Entry>) {
    && (forall f :: f in s.fires && f.DailyFire? ==>
          f.index < |schedule| && schedule[f.index].Daily? && f.wall >= TodayTarget(f.wall, schedule[f.index].target))
    && (forall f :: f in s.fires && Succeeded(f) ==> f.index in s.lastFired && Date(f.wall) <= s.lastFired[f.index])
    && (forall a, b :: 0 <= a < b < |s.fires| ==> LaterDate(s.fires[a], s.fires[b]))
  }

  /** From entry i on, nothing has fired after the date sampled before the sleep. */
  ghost predicate NotAhead(s: State, i: nat, today: int) {
    forall k :: k in s.lastFired && k >= i ==> s.lastFired[k] <= today
  }

  /** No entry has fired after an instant: its last date is not later, and when it is
      the same the slot's time has passed. */
  ghost predicate NotAfter(s: State, schedule: seq<Entry>, wall: int) {
    forall k :: k in s.lastFired ==>
      && s.lastFired[k] <= Date(wall)
      && (k < |schedule| && schedule[k].Daily? && s.lastFired[k] == Date(wall) ==>
            wall >= TodayTarget(wall, schedule[k].target))
  }

  lemma NotAfterLater(s: State, schedule: seq<Entry>, wall: int, later: int)
    requires NotAfter(s, schedule, wall) && wall <= later
    ensures NotAfter(s, schedule, later)
  {
    DateForward(wall, later);
  }

  lemma DailyKeptByAnnounce(s: State, schedule: seq<Entry>, i: nat, today: int, wall: int, messages: seq<string>,
                            d: Dispatch)
    requires DailySafe(s, schedule) && i < |schedule| && schedule[i].Daily?
    requires NotAhead(s, i, today) && today <= Date(wall)
    requires SlotDueNow(wall, schedule[i].target, Last(s, i) == Some(today))
    ensures DailySafe(Announce(s, schedule[i], messages, DailyFire(i, wall, d.ok), d.took), schedule)
  {
    var fire := DailyFire(i, wall, d.ok);
    var s' := Announce(s, schedule[i], messages, fire, d.took);
    assert forall f :: f in s'.fires ==> f in s.fires || f == fire;
    assert i in s.lastFired ==> s.lastFired[i] < Date(wall);
    forall a, b | 0 <= a < b < |s'.fires|
      ensures LaterDate(s'.fires[a], s'.fires[b])
    {
      assert s'.fires[a] == s.fires[a] && s.fires[a] in s.fires;
    }
  }

  lemma DailyKeptByPeriodic(s: State, schedule: seq<Entry>, entry: Entry, messages: seq<string>, fire: Fire, took: nat)
    requires DailySafe(s, schedule) && fire.PeriodicFire?
    ensures DailySafe(Announce(s, entry, messages, fire, took), schedule)
    ensures Announce(s, entry, messages, fire, took).lastFired == s.lastFired
  {
    var s' := Announce(s, entry, messages, fire, took);
    assert forall f :: f in s'.fires ==> f in s.fires || f == fire;
  }

  lemma DailyKeptByEntry(s: State, schedule: seq<Entry>, i: nat, today: int, mono: int, wall: int,
                         messages: seq<string>, d: Dispatch)
    requires DailySafe(s, schedule) && i < |schedule|
    requires NotAhead(s, i, today) && today <= Date(wall)
    ensures DailySafe(FireEntry(s, schedule[i], i, today, mono, wall, messages, d), schedule)
  {
    match schedule[i] {
      case Daily(target, _) =>
        if SlotDueNow(wall, target, Last(s, i) == Some(today)) {
          DailyKeptByAnnounce(s, schedule, i, today, wall, messages, d);
        }
      case Every(period, _) =>
        var s2 := s.(deadlines := s.deadlines[i := mono + period]);
        DailyKeptByPeriodic(s2, schedule, schedule[i], messages, PeriodicFire(i, mono, mono + s.lag, d.ok), d.took);
    }
  }

  lemma DatesKeptByEntry(s: State, schedule: seq<Entry>, i: nat, today: int, mono: int, wall: int,
                         messages: seq<string>, d: Dispatch)
    requires i < |schedule| && NotAhead(s, i, today) && NotAfter(s, schedule, wall)
    ensures var s' := FireEntry(s, schedule[i], i, today, mono, wall, messages, d);
            NotAhead(s', i + 1, today) && NotAfter(s', schedule, wall)
  {
  }

  lemma {:induction false} DailyKeptByPass(s: State, schedule: seq<Entry>, r: Round, n: nat)
    requires n <= |schedule| && |r.walls| == |r.dispatches| == |schedule|
    requires DailySafe(s, schedule) && Forward(r) && NotAfter(s, schedule, r.planned)
    ensures DailySafe(FirePass(s, schedule, r, n), schedule)
    ensures NotAhead(FirePass(s, schedule, r, n), n, Date(r.planned))
    ensures NotAfter(FirePass(s, schedule, r, n), schedule, if n == 0 then r.planned else r.walls[n - 1])
  {
    if n == 0 {
    } else {
      var i := n - 1;
      DailyKeptByPass(s, schedule, r, i);
      DateForward(r.planned, r.walls[i]);
      NotAfterLater(FirePass(s, schedule, r, i), schedule, if i == 0 then r.planned else r.walls[i - 1], r.walls[i]);
      DailyKeptByEntry(FirePass(s, schedule, r, i), schedule, i, Date(r.planned), r.mono, r.walls[i], r.messages,
                       r.dispatches[i]);
      DatesKeptByEntry(FirePass(s, schedule, r, i), schedule, i, Date(r.planned), r.mono, r.walls[i], r.messages,
                       r.dispatches[i]);
    }
  }

  lemma DateForward(a: int, b: int)
    requires a <= b
    ensures Date(a) <= Date(b)
  {
  }

  lemma {:induction false} DailyAlways(schedule: seq<Entry>, base: int, rounds: seq<Round>, n: nat)
    requires Fits(schedule, rounds) && AllForward(rounds) && n <= |rounds|
    ensures DailySafe(After(schedule, base, rounds, n), schedule)
    ensures n < |rounds| ==> NotAfter(After(schedule, base, rounds, n), schedule, rounds[n].planned)
  {
    if n == 0 {
    } else {
      var r := rounds[n - 1];
      assert r in rounds;
      DailyAlways(schedule, base, rounds, n - 1);
      DailyKeptByPass(After(schedule, base, rounds, n - 1), schedule, r, |schedule|);
      if n < |rounds| {
        NotAfterLater(After(schedule, base, rounds, n), schedule, End(r), rounds[n].planned);
      }
    }
  }

  /** Over any run whose clocks go forward, sleeps across midnight included: every
      dispatch of a daily entry, the last one too, is at or after its time. */
  lemma NeverBeforeItsTime(schedule: seq<Entry>, base: int, rounds: seq<Round>, fire: Fire)
    requires Fits(schedule, rounds) && AllForward(rounds)
    requires fire in After(schedule, base, rounds, |rounds|).fires && fire.DailyFire?
    ensures fire.index < |schedule| && schedule[fire.index].Daily?
    ensures fire.wall >= TodayTarget(fire.wall, schedule[fire.index].target)
  {
    DailyAlways(schedule, base, rounds, |rounds|);
  }

  /** And of any two successes of an entry, the later is of a later date. */
  lemma DailyOncePerDate(schedule: seq<Entry>, base: int, rounds: seq<Round>, a: nat, b: nat)
    requires Fits(schedule, rounds) && AllForward(rounds)
    requires a < b < |After(schedule, base, rounds, |rounds|).fires|
    ensures var fires := After(schedule, base, rounds, |rounds|).fires; LaterDate(fires[a], fires[b])
  {
    DailyAlways(schedule, base, rounds, |rounds|);
  }

  // ----- periodic entries -----------------------------------------------------------------------------------

  predicate Periodic(schedule: seq<Entry>, i: nat) { i < |schedule| && schedule[i].Every? }

  /** The passes that found the entry due are a period apart. */
  predicate Spaced(schedule: seq<Entry>, a: Fire, b: Fire) {
    a.PeriodicFire? && b.PeriodicFire? && a.index == b.index && Periodic(schedule, a.index) ==>
      a.mono + schedule[a.index].period <= b.mono
  }

  /** The passes that find an entry due come no earlier than one period after the start
      and after each other; no dispatch comes before its pass; and the deadline lies one
      period after the last pass. */
  ghost predicate PeriodicSafe(s: State, schedule: seq<Entry>, base: int) {
    && (forall i :: i in s.deadlines <==> Periodic(schedule, i))
    && (forall i :: i in s.deadlines ==> base + schedule[i].period <= s.deadlines[i])
    && (forall f :: f in s.fires && f.PeriodicFire? ==>
          && Periodic(schedule, f.index) && base + schedule[f.index].period <= f.mono <= f.sent
          && f.mono + schedule[f.index].period <= s.deadlines[f.index])
    && (forall a, b :: 0 <= a < b < |s.fires| ==> Spaced(schedule, s.fires[a], s.fires[b]))
  }

  ghost predicate ValidPeriods(schedule: seq<Entry>) {
    forall i :: 0 <= i < |schedule| && schedule[i].Every? ==> 0 <= schedule[i].period
  }

  lemma PeriodicKeptByDaily(s: State, schedule: seq<Entry>, base: int, entry: Entry, messages: seq<string>, fire: Fire,
                            took: nat)
    requires PeriodicSafe(s, schedule, base) && fire.DailyFire?
    ensures PeriodicSafe(Announce(s, entry, messages, fire, took), schedule, base)
  {
    var s' := Announce(s, entry, messages, fire, took);
    assert forall f :: f in s'.fires ==> f in s.fires || f == fire;
  }

  lemma PeriodicKeptByFire(s: State, schedule: seq<Entry>, base: int, i: nat, mono: int, messages: seq<string>,
                           d: Dispatch)
    requires PeriodicSafe(s, schedule, base) && ValidPeriods(schedule) && Periodic(schedule, i)
    requires i in s.deadlines && s.deadlines[i] <= mono
    ensures PeriodicSafe(Announce(s.(deadlines := s.deadlines[i := mono + schedule[i].period]), schedule[i], messages,
                                  PeriodicFire(i, mono, mono + s.lag, d.ok), d.took), schedule, base)
  {
    var fire := PeriodicFire(i, mono, mono + s.lag, d.ok);
    var moved := s.(deadlines := s.deadlines[i := mono + schedule[i].period]);
    var s' := Announce(moved, schedule[i], messages, fire, d.took);
    assert forall f :: f in s'.fires ==> f in s.fires || f == fire;
    forall a, b | 0 <= a < b < |s'.fires|
      ensures Spaced(schedule, s'.fires[a], s'.fires[b])
    {
      assert s'.fires[a] == s.fires[a] && s.fires[a] in s.fires;
    }
  }

  lemma PeriodicKeptByEntry(s: State, schedule: seq<Entry>, base: int, i: nat, today: int, mono: int, wall: int,
                            messages: seq<string>, d: Dispatch)
    requires PeriodicSafe(s, schedule, base) && ValidPeriods(schedule) && i < |schedule|
    ensures PeriodicSafe(FireEntry(s, schedule[i], i, today, mono, wall, messages, d), schedule, base)
  {
    if schedule[i].Daily? {
      PeriodicKeptByDaily(s, schedule, base, schedule[i], messages, DailyFire(i, wall, d.ok), d.took);
    } else if i in s.deadlines && s.deadlines[i] <= mono {
      PeriodicKeptByFire(s, schedule, base, i, mono, messages, d);
    }
  }

  lemma {:induction false} PeriodicKeptByPass(s: State, schedule: seq<Entry>, base: int, r: Round, n: nat)
    requires n <= |schedule| && |r.walls| == |r.dispatches| == |schedule|
    requires PeriodicSafe(s, schedule, base) && ValidPeriods(schedule)
    ensures PeriodicSafe(FirePass(s, schedule, r, n), schedule, base)
  {
    if n == 0 {
    } else {
      var i := n - 1;
      PeriodicKeptByPass(s, schedule, base, r, i);
      PeriodicKeptByEntry(FirePass(s, schedule, r, i), schedule, base, i, Date(r.planned), r.mono, r.walls[i],
                          r.messages, r.dispatches[i]);
    }
  }

  /** The passes that find an every_seconds entry due are at least that far apart, and the
      first is at least that far from the start, whatever the clocks and dispatches do. */
  lemma {:induction false} PeriodicIsSpaced(schedule: seq<Entry>, base: int, rounds: seq<Round>, n: nat)
    requires Fits(schedule, rounds) && ValidPeriods(schedule) && n <= |rounds|
    ensures PeriodicSafe(After(schedule, base, rounds, n), schedule, base)
  {
    if n == 0 {
    } else {
      assert rounds[n - 1] in rounds;
      PeriodicIsSpaced(schedule, base, rounds, n - 1);
      PeriodicKeptByPass(After(schedule, base, rounds, n - 1), schedule, base, rounds[n - 1], |schedule|);
    }
  }

  // ----- how far the announcements themselves are apart ---------------------------------------

  function FiresAfter(schedule: seq<Entry>, base: int, rounds: seq<Round>): seq<Fire>
    requires Fits(schedule, rounds)
  {
    After(schedule, base, rounds, |rounds|).fires
  }

  /** Two announcements of an entry are a period apart, less the time that dispatches of
      earlier entries held up the first. */
  lemma AnnouncementsLag(schedule: seq<Entry>, base: int, rounds: seq<Round>, a: nat, b: nat)
    requires Fits(schedule, rounds) && ValidPeriods(schedule) && a < b < |FiresAfter(schedule, base, rounds)|
    ensures var (x, y) := (FiresAfter(schedule, base, rounds)[a], FiresAfter(schedule, base, rounds)[b]);
            x.PeriodicFire? && y.PeriodicFire? && x.index == y.index ==>
              Periodic(schedule, x.index) && x.sent + schedule[x.index].period - (x.sent - x.mono) <= y.sent
  {
    PeriodicIsSpaced(schedule, base, rounds, |rounds|);
    var fires := FiresAfter(schedule, base, rounds);
    assert fires[a] in fires && fires[b] in fires && Spaced(schedule, fires[a], fires[b]);
  }

  /** No dispatch takes longer than a limit, as with rcon_timeout_seconds. */
  predicate WithinLimit(rounds: seq<Round>, limit: nat) {
    forall k, i :: 0 <= k < |rounds| && 0 <= i < |rounds[k].dispatches| ==> rounds[k].dispatches[i].took <= limit
  }

  lemma {:induction false} LagOfPass(s: State, schedule: seq<Entry>, r: Round, n: nat, limit: nat)
    requires n <= |schedule| && |r.walls| == |r.dispatches| == |schedule|
    requires n == 0 || forall i :: 0 <= i < |r.dispatches| ==> r.dispatches[i].took <= limit
    ensures FirePass(s, schedule, r, n).lag <= n * limit
  {
    if n == 0 {
    } else {
      LagOfPass(s, schedule, r, n - 1, limit);
      assert n * limit == (n - 1) * limit + limit;
    }
  }

  /** The announcements of an entry come soon after the passes that find it due. */
  ghost predicate Prompt(fires: seq<Fire>, index: nat, bound: nat) {
    forall f :: f in fires && f.PeriodicFire? && f.index == index ==> f.sent - f.mono <= bound
  }

  lemma {:induction false} PromptByPass(s: State, schedule: seq<Entry>, r: Round, n: nat, index: nat, bound: nat)
    requires n <= |schedule| && |r.walls| == |r.dispatches| == |schedule| && index < |schedule|
    requires Prompt(s.fires, index, bound) && FirePass(s, schedule, r, index).lag <= bound
    ensures Prompt(FirePass(s, schedule, r, n).fires, index, bound)
  {
    if n == 0 {
    } else {
      PromptByPass(s, schedule, r, n - 1, index, bound);
      var s1, s2 := FirePass(s, schedule, r, n - 1), FirePass(s, schedule, r, n);
      assert forall f :: f in s2.fires && f.PeriodicFire? ==>
               f in s1.fires || (f.index == n - 1 && f.sent == f.mono + s1.lag);
    }
  }

  /** For the first entry no limit is needed: nothing is dispatched before it. */
  lemma {:induction false} PromptAlways(schedule: seq<Entry>, base: int, rounds: seq<Round>, n: nat, index: nat,
                                        limit: nat)
    requires Fits(schedule, rounds) && n <= |rounds| && index < |schedule|
    requires index == 0 || WithinLimit(rounds, limit)
    ensures Prompt(After(schedule, base, rounds, n).fires, index, index * limit)
  {
    if n == 0 {
    } else {
      var r := rounds[n - 1];
      assert r in rounds;
      PromptAlways(schedule, base, rounds, n - 1, index, limit);
      LagOfPass(After(schedule, base, rounds, n - 1), schedule, r, index, limit);
      PromptByPass(After(schedule, base, rounds, n - 1), schedule, r, |schedule|, index, index * limit);
    }
  }

  /** With dispatches within a limit, the announcements of an every_seconds entry are
      that far apart, less the limit for every entry listed before it. */
  lemma AnnouncementsAreSpaced(schedule: seq<Entry>, base: int, rounds: seq<Round>, limit: nat, a: nat, b: nat)
    requires Fits(schedule, rounds) && ValidPeriods(schedule) && WithinLimit(rounds, limit)
    requires a < b < |FiresAfter(schedule, base, rounds)|
    ensures var (x, y) := (FiresAfter(schedule, base, rounds)[a], FiresAfter(schedule, base, rounds)[b]);
            x.PeriodicFire? && y.PeriodicFire? && x.index == y.index ==>
              Periodic(schedule, x.index) && x.sent + schedule[x.index].period - x.index * limit <= y.sent
  {
    AnnouncementsLag(schedule, base, rounds, a, b);
    var fires := FiresAfter(schedule, base, rounds);
    if fires[a].PeriodicFire? && fires[b].PeriodicFire? && fires[a].index == fires[b].index {
      PromptAlways(schedule, base, rounds, |rounds|, fires[a].index, limit);
      assert fires[a] in fires;
    }
  }

  /** The clocks go forward, and every round begins after the dispatches of the last. */
  ghost predicate RealTime(schedule: seq<Entry>, base: int, rounds: seq<Round>)
    requires Fits(schedule, rounds)
  {
    && AllForward(rounds)
    && forall k :: 0 < k < |rounds| ==> rounds[k - 1].mono + After(schedule, base, rounds, k).lag <= rounds[k].mono
  }

  ghost predicate SpacedInRun(schedule: seq<Entry>, base: int, rounds: seq<Round>, i: nat)
    requires i < |schedule| && schedule[i].Every?
  {
    Fits(schedule, rounds) && RealTime(schedule, base, rounds) ==>
      var fires := FiresAfter(schedule, base, rounds);
      forall a, b :: 0 <= a < b < |fires| && fires[a].PeriodicFire? && fires[b].PeriodicFire?
                     && fires[a].index == fires[b].index == i ==>
        fires[a].sent + schedule[i].period <= fires[b].sent
  }

  /** In all runs the announcements of the entry are a period apart. */
  ghost predicate AlwaysSpaced(schedule: seq<Entry>, i: nat)
    requires i < |schedule| && schedule[i].Every?
  {
    forall base, rounds :: SpacedInRun(schedule, base, rounds, i)
  }

  lemma FirstEntryIsSpaced(schedule: seq<Entry>, base: int, rounds: seq<Round>)
    requires ValidPeriods(schedule) && 0 < |schedule| && schedule[0].Every?
    ensures SpacedInRun(schedule, base, rounds, 0)
  {
    if Fits(schedule, rounds) {
      var fires := FiresAfter(schedule, base, rounds);
      PromptAlways(schedule, base, rounds, |rounds|, 0, 0);
      forall a, b | 0 <= a < b < |fires| && fires[a].PeriodicFire? && fires[b].PeriodicFire?
                    && fires[a].index == fires[b].index == 0
        ensures fires[a].sent + schedule[0].period <= fires[b].sent
      {
        AnnouncementsLag(schedule, base, rounds, a, b);
        assert fires[a] in fires;
      }
    }
  }

  // ----- two rounds in which a later entry is announced too soon --------------------------------

  /** A dispatch that takes a moment for the first entry, and none for the others. */
  function Slow(n: nat): seq<Dispatch> {
    seq(n, k => Dispatch(true, if k == 0 then 1 else 0))
  }

  function Quick(n: nat): seq<Dispatch> { seq(n, k => Dispatch(true, 0)) }

  /** Everything at one wall time. */
  function AllAt(wall: int, mono: int, dispatches: seq<Dispatch>): Round {
    Round(wall, mono, seq(|dispatches|, k => wall), dispatches, ["m"])
  }

  /** The last instant of the first day, then a period later. */
  function TwoRounds(schedule: seq<Entry>, i: nat, mono: int): seq<Round>
    requires Periodic(schedule, i)
  {
    [AllAt(DAY - 1, mono, Slow(|schedule|)),
     AllAt(DAY - 1 + schedule[i].period, mono + schedule[i].period, Quick(|schedule|))]
  }

  lemma AlwaysSomeMessage(s: State, entry: Entry)
    ensures Pick(s, entry, ["m"]).0.Some? && Pick(s, entry, ["m"]).0.value != ""
  {
  }

  /** One due entry is announced, and only its dispatch takes time. */
  lemma DueIsAnnounced(s: State, schedule: seq<Entry>, r: Round, k: nat)
    requires k < |schedule| && |r.walls| == |r.dispatches| == |schedule| && r.messages == ["m"]
    ensures var (s1, s2) := (FirePass(s, schedule, r, k), FirePass(s, schedule, r, k + 1));
            && s1.fires <= s2.fires
            && s2.lag <= s1.lag + r.dispatches[k].took && s1.lag <= s2.lag
            && (schedule[k].Daily?
                && SlotDueNow(r.walls[k], schedule[k].target, Last(s1, k) == Some(Date(r.planned))) ==>
                  s2.lag == s1.lag + r.dispatches[k].took)
            && (schedule[k].Every? && k in s1.deadlines && s1.deadlines[k] <= r.mono ==>
                  && s2.lag == s1.lag + r.dispatches[k].took
                  && s2.deadlines[k] == r.mono + schedule[k].period
                  && s2.fires == s1.fires + [PeriodicFire(k, r.mono, r.mono + s1.lag, r.dispatches[k].ok)])
            && (forall j :: j != k && j in s1.deadlines ==> j in s2.deadlines && s2.deadlines[j] == s1.deadlines[j])
  {
    var s1 := FirePass(s, schedule, r, k);
    AlwaysSomeMessage(s1, schedule[k]);
    if schedule[k].Every? {
      AlwaysSomeMessage(s1.(deadlines := s1.deadlines[k := r.mono + schedule[k].period]), schedule[k]);
    }
  }

  /** A stretch of the pass only adds announcements, and leaves other deadlines alone. */
  ghost predicate Stretch(s1: State, s2: State, i: nat) {
    s1.fires <= s2.fires && (i in s1.deadlines ==> i in s2.deadlines && s2.deadlines[i] == s1.deadlines[i])
  }

  lemma StretchOfEntry(s: State, schedule: seq<Entry>, r: Round, k: nat, i: nat)
    requires k < |schedule| && |r.walls| == |r.dispatches| == |schedule| && r.messages == ["m"] && i != k
    ensures Stretch(FirePass(s, schedule, r, k), FirePass(s, schedule, r, k + 1), i)
    ensures r.dispatches[k].took == 0 ==> FirePass(s, schedule, r, k + 1).lag == FirePass(s, schedule, r, k).lag
  {
    DueIsAnnounced(s, schedule, r, k);
  }

  lemma {:induction false} StretchOfPass(s: State, schedule: seq<Entry>, r: Round, lo: nat, hi: nat, i: nat)
    requires lo <= hi <= |schedule| && |r.walls| == |r.dispatches| == |schedule| && r.messages == ["m"]
    requires i < lo || hi <= i
    ensures Stretch(FirePass(s, schedule, r, lo), FirePass(s, schedule, r, hi), i)
    ensures (forall k :: lo <= k < hi ==> r.dispatches[k].took == 0) ==>
              FirePass(s, schedule, r, hi).lag == FirePass(s, schedule, r, lo).lag
    decreases hi
  {
    if lo == hi {
    } else {
      StretchOfPass(s, schedule, r, lo, hi - 1, i);
      StretchOfEntry(s, schedule, r, hi - 1, i);
    }
  }

  /** A pass that finds an entry due announces it after the lag of those before it. */
  lemma PassAnnounces(s: State, schedule: seq<Entry>, r: Round, i: nat) returns (at: nat)
    requires Periodic(schedule, i) && |r.walls| == |r.dispatches| == |schedule| && r.messages == ["m"]
    requires i in s.deadlines && s.deadlines[i] <= r.mono
    ensures var s' := FirePass(s, schedule, r, |schedule|);
            && s.fires <= s'.fires && |s.fires| <= at < |s'.fires|
            && s'.fires[at] == PeriodicFire(i, r.mono, r.mono + FirePass(s, schedule, r, i).lag, r.dispatches[i].ok)
            && i in s'.deadlines && s'.deadlines[i] == r.mono + schedule[i].period
  {
    StretchOfPass(s, schedule, r, 0, i, i);
    DueIsAnnounced(s, schedule, r, i);
    StretchOfPass(s, schedule, r, i + 1, |schedule|, i);
    at := |FirePass(s, schedule, r, i).fires|;
  }

  /** The first pass, in which the dispatch of the first entry takes a moment. */
  lemma SlowPass(schedule: seq<Entry>, i: nat, mono: int) returns (at: nat)
    requires ValidSchedule(schedule) && 0 < i && Periodic(schedule, i) && schedule[i].period <= mono
    requires schedule[0].Every? ==> schedule[0].period <= mono
    ensures var s' := FirePass(Started(schedule, 0), schedule, AllAt(DAY - 1, mono, Slow(|schedule|)), |schedule|);
            && at < |s'.fires| && s'.fires[at] == PeriodicFire(i, mono, mono + 1, true) && s'.lag == 1
            && i in s'.deadlines && s'.deadlines[i] == mono + schedule[i].period
  {
    var s, r := Started(schedule, 0), AllAt(DAY - 1, mono, Slow(|schedule|));
    DateOf(0, DAY - 1);
    DueIsAnnounced(s, schedule, r, 0);
    assert FirePass(s, schedule, r, 1).lag == 1;
    StretchOfPass(s, schedule, r, 1, i, 0);
    StretchOfPass(s, schedule, r, 1, |schedule|, 0);
    at := PassAnnounces(s, schedule, r, i);
  }

  /** The second, a period later, in which no dispatch takes time. */
  lemma QuickPass(s: State, schedule: seq<Entry>, i: nat, wall: int, mono: int) returns (at: nat)
    requires Periodic(schedule, i) && i in s.deadlines && s.deadlines[i] <= mono
    ensures var s' := FirePass(s, schedule, AllAt(wall, mono, Quick(|schedule|)), |schedule|);
            && s.fires <= s'.fires && |s.fires| <= at < |s'.fires| && s'.fires[at] == PeriodicFire(i, mono, mono, true)
  {
    var r := AllAt(wall, mono, Quick(|schedule|));
    StretchOfPass(s, schedule, r, 0, i, i);
    at := PassAnnounces(s, schedule, r, i);
  }

  lemma AllAtFits(wall: int, mono: int, dispatches: seq<Dispatch>)
    ensures var r := AllAt(wall, mono, dispatches);
            |r.walls| == |r.dispatches| && Forward(r) && End(r) == wall
  {
  }

  lemma AfterTwo(schedule: seq<Entry>, base: int, r1: Round, r2: Round, s1: State, s2: State)
    requires |r1.walls| == |r1.dispatches| == |schedule| && |r2.walls| == |r2.dispatches| == |schedule|
    requires s1 == FirePass(Started(schedule, base), schedule, r1, |schedule|)
    requires s2 == FirePass(s1, schedule, r2, |schedule|)
    ensures Fits(schedule, [r1, r2])
    ensures After(schedule, base, [r1, r2], 1) == s1 && After(schedule, base, [r1, r2], 2) == s2
  {
    assert After(schedule, base, [r1, r2], 0) == Started(schedule, base);
  }

  /** What makes a run of two rounds one in which the entry is announced too soon. */
  lemma TooSoon(schedule: seq<Entry>, base: int, r1: Round, r2: Round, s1: State, s2: State, i: nat, a: nat, b: nat)
    requires Periodic(schedule, i) && Fits(schedule, [r1, r2])
    requires After(schedule, base, [r1, r2], 1) == s1 && After(schedule, base, [r1, r2], 2) == s2
    requires Forward(r1) && Forward(r2) && End(r1) <= r2.planned && r1.mono + s1.lag <= r2.mono
    requires a < b < |s2.fires| && s2.fires[a].PeriodicFire? && s2.fires[b].PeriodicFire?
    requires s2.fires[a].index == s2.fires[b].index == i && s2.fires[a].sent + schedule[i].period > s2.fires[b].sent
    ensures !SpacedInRun(schedule, base, [r1, r2], i)
  {
    var rounds := [r1, r2];
    assert AllForward(rounds);
    forall k | 0 < k < |rounds|
      ensures rounds[k - 1].mono + After(schedule, base, rounds, k).lag <= rounds[k].mono
    {
      assert k == 1;
    }
    assert RealTime(schedule, base, rounds) && |rounds| == 2;
    assert FiresAfter(schedule, base, rounds) == s2.fires;
  }

  lemma SlowThenQuick(schedule: seq<Entry>, i: nat, mono: int, r1: Round, r2: Round, s1: State, s2: State)
    requires ValidSchedule(schedule) && 0 < i && Periodic(schedule, i) && 0 < schedule[i].period <= mono
    requires schedule[0].Every? ==> schedule[0].period <= mono
    requires r1 == AllAt(DAY - 1, mono, Slow(|schedule|))
    requires r2 == AllAt(DAY - 1 + schedule[i].period, mono + schedule[i].period, Quick(|schedule|))
    requires s1 == FirePass(Started(schedule, 0), schedule, r1, |schedule|)
    requires s2 == FirePass(s1, schedule, r2, |schedule|)
    ensures !SpacedInRun(schedule, 0, [r1, r2], i)
  {
    AllAtFits(r1.planned, mono, Slow(|schedule|));
    AllAtFits(r2.planned, r2.mono, Quick(|schedule|));
    var a := SlowPass(schedule, i, mono);
    var b := QuickPass(s1, schedule, i, r2.planned, r2.mono);
    AfterTwo(schedule, 0, r1, r2, s1, s2);
    assert s2.fires[a] == s1.fires[a];
    TooSoon(schedule, 0, r1, r2, s1, s2, i, a, b);
  }

  /** Any entry but the first can be announced too soon: an earlier dispatch holds it up
      in one pass, and none in the next. */
  lemma LaterEntryComesTooSoon(schedule: seq<Entry>, i: nat)
    requires ValidSchedule(schedule) && 0 < i && Periodic(schedule, i) && 0 < schedule[i].period
    ensures exists mono :: !SpacedInRun(schedule, 0, TwoRounds(schedule, i, mono), i)
  {
    var period := schedule[i].period;
    var mono := if schedule[0].Every? && schedule[0].period > period then schedule[0].period else period;
    var rounds := TwoRounds(schedule, i, mono);
    var s1 := FirePass(Started(schedule, 0), schedule, rounds[0], |schedule|);
    SlowThenQuick(schedule, i, mono, rounds[0], rounds[1], s1, FirePass(s1, schedule, rounds[1], |schedule|));
    assert rounds == [rounds[0], rounds[1]];
  }

  /** The announcements of an every_seconds entry are that far apart in all runs exactly
      when the entry is the first of the schedule. */
  lemma AlwaysSpacedExactly(schedule: seq<Entry>, i: nat)
    requires ValidSchedule(schedule) && ValidPeriods(schedule) && Periodic(schedule, i) && 0 < schedule[i].period
    ensures AlwaysSpaced(schedule, i) <==> i == 0
  {
    if i == 0 {
      forall base, rounds
        ensures SpacedInRun(schedule, base, rounds, 0)
      {
        FirstEntryIsSpaced(schedule, base, rounds);
      }
    } else {
      LaterEntryComesTooSoon(schedule, i);
    }
  }

  // ----- what is announced, exactly -----------------------------------------------------------

  /** There is a message for every entry; load_config sees to it. */
  predicate HasMessages(messages: seq<string>) { messages != [] && "" !in messages }

  /** The entry has been announced with success on the date. */
  ghost predicate Done(fires: seq<Fire>, i: nat, date: int) {
    exists f :: f in fires && Succeeded(f) && f.index == i && Date(f.wall) == date
  }

  ghost predicate Noted(s: State) {
    forall i :: i in s.lastFired ==> Done(s.fires, i, s.lastFired[i])
  }

  lemma NotedAfterAnnounce(s: State, entry: Entry, messages: seq<string>, fire: Fire, took: nat)
    requires Noted(s)
    ensures Noted(Announce(s, entry, messages, fire, took))
  {
    var s' := Announce(s, entry, messages, fire, took);
    assert s'.fires != s.fires ==> fire in s'.fires;
    assert forall f :: f in s.fires ==> f in s'.fires;
  }

  lemma {:induction false} NotedAfterPass(s: State, schedule: seq<Entry>, r: Round, n: nat)
    requires n <= |schedule| && |r.walls| == |r.dispatches| == |schedule| && Noted(s)
    ensures Noted(FirePass(s, schedule, r, n))
  {
    if n == 0 {
    } else {
      var i := n - 1;
      var s1, d := FirePass(s, schedule, r, i), r.dispatches[i];
      NotedAfterPass(s, schedule, r, i);
      match schedule[i] {
        case Daily(_, _) =>
          NotedAfterAnnounce(s1, schedule[i], r.messages, DailyFire(i, r.walls[i], d.ok), d.took);
        case Every(period, _) =>
          NotedAfterAnnounce(s1.(deadlines := s1.deadlines[i := r.mono + period]), schedule[i], r.messages,
                             PeriodicFire(i, r.mono, r.mono + s1.lag, d.ok), d.took);
      }
    }
  }

  lemma {:induction false} NotedAlways(schedule: seq<Entry>, base: int, rounds: seq<Round>, n: nat)
    requires Fits(schedule, rounds) && n <= |rounds|
    ensures Noted(After(schedule, base, rounds, n))
  {
    if n == 0 {
    } else {
      assert rounds[n - 1] in rounds;
      NotedAlways(schedule, base, rounds, n - 1);
      NotedAfterPass(After(schedule, base, rounds, n - 1), schedule, rounds[n - 1], |schedule|);
    }
  }

  lemma PickedIsThere(s: State, entry: Entry, messages: seq<string>)
    requires HasMessages(messages)
    ensures Pick(s, entry, messages).0.Some? && Pick(s, entry, messages).0.value != ""
  {
    if entry.message == "" {
      assert messages[s.cursor % |messages|] in messages;
    }
  }

  /** In every round of a run whose clocks go forward, a daily entry is announced exactly
      when its wall clock has reached its time and it was not announced with success on
      the date taken before the sleep. */
  lemma DailyFiresExactly(schedule: seq<Entry>, base: int, rounds: seq<Round>, n: nat, i: nat)
    requires Fits(schedule, rounds) && AllForward(rounds) && n < |rounds| && |rounds[n].walls| == |schedule|
    requires i < |schedule| && schedule[i].Daily? && |rounds[n].dispatches| == |schedule|
    requires HasMessages(rounds[n].messages)
    ensures var s, r := After(schedule, base, rounds, n), rounds[n];
            var before := FirePass(s, schedule, r, i).fires;
            FirePass(s, schedule, r, i + 1).fires ==
            if r.walls[i] >= Date(r.walls[i]) * DAY + schedule[i].target && !Done(before, i, Date(r.planned))
            then before + [DailyFire(i, r.walls[i], r.dispatches[i].ok)]
            else before
  {
    var s, r := After(schedule, base, rounds, n), rounds[n];
    DailyAlways(schedule, base, rounds, n);
    NotedAlways(schedule, base, rounds, n);
    DailyKeptByPass(s, schedule, r, i);
    NotedAfterPass(s, schedule, r, i);
    var s1 := FirePass(s, schedule, r, i);
    DoneMeansLast(s1, schedule, i, Date(r.planned));
    PickedIsThere(s1, schedule[i], r.messages);
  }

  lemma DoneMeansLast(s: State, schedule: seq<Entry>, i: nat, today: int)
    requires DailySafe(s, schedule) && Noted(s) && NotAhead(s, i, today)
    ensures Done(s.fires, i, today) <==> Last(s, i) == Some(today)
  {
  }

  /** The pass that last found the entry due, or the start. */
  function LastMono(fires: seq<Fire>, i: nat, base: int): int {
    if fires == [] then base
    else
      var last := fires[|fires| - 1];
      if last.PeriodicFire? && last.index == i then last.mono else LastMono(fires[..|fires| - 1], i, base)
  }

  lemma LastMonoSnoc(fires: seq<Fire>, f: Fire, i: nat, base: int)
    ensures LastMono(fires + [f], i, base) ==
            if f.PeriodicFire? && f.index == i then f.mono else LastMono(fires, i, base)
  {
    assert (fires + [f])[..|fires + [f]| - 1] == fires;
  }

  /** Every deadline is one period after the last pass that found its entry due. */
  ghost predicate DeadlinesStand(s: State, schedule: seq<Entry>, base: int) {
    && (forall i :: i in s.deadlines <==> Periodic(schedule, i))
    && (forall i :: i in s.deadlines ==> s.deadlines[i] == LastMono(s.fires, i, base) + schedule[i].period)
  }

  lemma DeadlinesAfterEntry(s: State, schedule: seq<Entry>, base: int, i: nat, today: int, mono: int, wall: int,
                            messages: seq<string>, d: Dispatch)
    requires DeadlinesStand(s, schedule, base) && i < |schedule| && HasMessages(messages)
    ensures DeadlinesStand(FireEntry(s, schedule[i], i, today, mono, wall, messages, d), schedule, base)
  {
    PickedIsThere(s, schedule[i], messages);
    var fire := if schedule[i].Daily? then DailyFire(i, wall, d.ok) else PeriodicFire(i, mono, mono + s.lag, d.ok);
    if schedule[i].Every? {
      PickedIsThere(s.(deadlines := s.deadlines[i := mono + schedule[i].period]), schedule[i], messages);
    }
    forall k
      ensures LastMono(s.fires + [fire], k, base) ==
              if fire.PeriodicFire? && k == i then mono else LastMono(s.fires, k, base)
    {
      LastMonoSnoc(s.fires, fire, k, base);
    }
  }

  lemma {:induction false} DeadlinesAfterPass(s: State, schedule: seq<Entry>, base: int, r: Round, n: nat)
    requires n <= |schedule| && |r.walls| == |r.dispatches| == |schedule| && HasMessages(r.messages)
    requires DeadlinesStand(s, schedule, base)
    ensures DeadlinesStand(FirePass(s, schedule, r, n), schedule, base)
  {
    if n == 0 {
    } else {
      var i := n - 1;
      DeadlinesAfterPass(s, schedule, base, r, i);
      DeadlinesAfterEntry(FirePass(s, schedule, r, i), schedule, base, i, Date(r.planned), r.mono, r.walls[i],
                          r.messages, r.dispatches[i]);
    }
  }

  ghost predicate AllHaveMessages(rounds: seq<Round>) {
    forall k :: 0 <= k < |rounds| ==> HasMessages(rounds[k].messages)
  }

  lemma {:induction false} DeadlinesAlways(schedule: seq<Entry>, base: int, rounds: seq<Round>, n: nat)
    requires Fits(schedule, rounds) && AllHaveMessages(rounds) && n <= |rounds|
    ensures DeadlinesStand(After(schedule, base, rounds, n), schedule, base)
  {
    if n == 0 {
    } else {
      assert rounds[n - 1] in rounds;
      DeadlinesAlways(schedule, base, rounds, n - 1);
      DeadlinesAfterPass(After(schedule, base, rounds, n - 1), schedule, base, rounds[n - 1], |schedule|);
    }
  }

  /** In every round of every run an every_seconds entry is announced exactly when its
      period has passed since the pass that last found it due, or since the start. */
  lemma PeriodicFiresExactly(schedule: seq<Entry>, base: int, rounds: seq<Round>, n: nat, i: nat)
    requires Fits(schedule, rounds) && AllHaveMessages(rounds) && n < |rounds| && |rounds[n].walls| == |schedule|
    requires Periodic(schedule, i) && |rounds[n].dispatches| == |schedule|
    ensures var s, r := After(schedule, base, rounds, n), rounds[n];
            var s1 := FirePass(s, schedule, r, i);
            FirePass(s, schedule, r, i + 1).fires ==
            if r.mono - LastMono(s1.fires, i, base) >= schedule[i].period
            then s1.fires + [PeriodicFire(i, r.mono, r.mono + s1.lag, r.dispatches[i].ok)]
            else s1.fires
  {
    var s, r := After(schedule, base, rounds, n), rounds[n];
    DeadlinesAlways(schedule, base, rounds, n);
    DeadlinesAfterPass(s, schedule, base, r, i);
    var s1 := FirePass(s, schedule, r, i);
    PickedIsThere(s1.(deadlines := s1.deadlines[i := r.mono + schedule[i].period]), schedule[i], r.messages);
  }

  /** How many of the first n announcements took their text from the list. */
  function Rotating(schedule: seq<Entry>, fires: seq<Fire>, n: nat): nat
    requires n <= |fires|
  {
    if n == 0 then 0
    else
      var i := fires[n - 1].index;
      Rotating(schedule, fires, n - 1) + if i < |schedule| && schedule[i].message == "" then 1 else 0
  }

  /** The place of the nth turn in a round of so many. */
  function Place(n: nat, size: nat): (r: nat)
    requires size > 0
    ensures r < size
  {
    if n < size then n else Place(n - size, size)
  }

  lemma {:induction false} PlaceIsMod(n: nat, size: nat)
    requires size > 0
    ensures Place(n, size) == n % size
  {
    if n >= size {
      PlaceIsMod(n - size, size);
      ModMinus(n, size);
    }
  }

  /** The text of an announcement when so many have taken theirs from the list. */
  function TextFor(schedule: seq<Entry>, messages: seq<string>, f: Fire, turn: nat): string
    requires messages != []
  {
    if f.index < |schedule| && schedule[f.index].message != "" then schedule[f.index].message
    else messages[Place(turn, |messages|)]
  }

  /** The texts that such announcements have. */
  function Texts(schedule: seq<Entry>, messages: seq<string>, fires: seq<Fire>, n: nat): seq<string>
    requires messages != [] && n <= |fires|
  {
    if n == 0 then []
    else
      Texts(schedule, messages, fires, n - 1) +
      [TextFor(schedule, messages, fires[n - 1], Rotating(schedule, fires, n - 1))]
  }

  lemma {:induction false} TextsAt(schedule: seq<Entry>, messages: seq<string>, fires: seq<Fire>, n: nat, k: nat)
    requires messages != [] && k < n <= |fires|
    ensures |Texts(schedule, messages, fires, n)| == n
    ensures Texts(schedule, messages, fires, n)[k] ==
            TextFor(schedule, messages, fires[k], Rotating(schedule, fires, k))
  {
    if n == 1 {
    } else {
      TextsAt(schedule, messages, fires, n - 1, if k == n - 1 then 0 else k);
    }
  }

  lemma {:induction false} TextsOfPrefix(schedule: seq<Entry>, messages: seq<string>, fires: seq<Fire>, f: Fire, n: nat)
    requires messages != [] && n <= |fires|
    ensures Texts(schedule, messages, fires + [f], n) == Texts(schedule, messages, fires, n)
  {
    if n == 0 {
    } else {
      TextsOfPrefix(schedule, messages, fires, f, n - 1);
      RotatingOfPrefix(schedule, fires, f, n - 1);
    }
  }

  ghost predicate CursorAt(cursor: nat, fires: seq<Fire>, schedule: seq<Entry>, messages: seq<string>)
    requires messages != []
  {
    cursor == Place(Rotating(schedule, fires, |fires|), |messages|)
  }

  lemma {:induction false} RotatingOfPrefix(schedule: seq<Entry>, fires: seq<Fire>, f: Fire, n: nat)
    requires n <= |fires|
    ensures Rotating(schedule, fires + [f], n) == Rotating(schedule, fires, n)
  {
    if n == 0 {
    } else {
      RotatingOfPrefix(schedule, fires, f, n - 1);
    }
  }

  lemma RotatingSnoc(schedule: seq<Entry>, fires: seq<Fire>, f: Fire)
    ensures Rotating(schedule, fires + [f], |fires + [f]|) ==
            Rotating(schedule, fires, |fires|) +
            if f.index < |schedule| && schedule[f.index].message == "" then 1 else 0
  {
    RotatingOfPrefix(schedule, fires, f, |fires|);
  }

  lemma ModSucc(c: nat, n: nat)
    requires n > 0
    ensures (c % n + 1) % n == (c + 1) % n && (c % n) % n == c % n
  {
    if c > 0 {
      NextIndex(c - 1, 1, n);
      NextIndex(c - 1, 0, n);
    }
  }

  lemma SaidSnoc(fires: seq<Fire>, schedule: seq<Entry>, messages: seq<string>, f: Fire, turn: nat)
    requires messages != [] && turn == Rotating(schedule, fires, |fires|)
    ensures Texts(schedule, messages, fires + [f], |fires + [f]|) ==
            Texts(schedule, messages, fires, |fires|) + [TextFor(schedule, messages, f, turn)]
  {
    TextsOfPrefix(schedule, messages, fires, f, |fires|);
    RotatingOfPrefix(schedule, fires, f, |fires|);
  }

  lemma CursorMoves(cursor: nat, turn: nat, messages: seq<string>)
    requires messages != [] && cursor == Place(turn, |messages|)
    ensures NextMessage(messages, cursor) ==
            (Some(messages[Place(turn, |messages|)]), Place(turn + 1, |messages|))
  {
    PlaceIsMod(turn, |messages|);
    PlaceIsMod(turn + 1, |messages|);
    ModSucc(turn, |messages|);
  }

  /** What announcing does to the fires, their texts and the cursor. */
  lemma AnnounceSays(s: State, schedule: seq<Entry>, messages: seq<string>, fire: Fire, took: nat, turn: nat)
    requires HasMessages(messages) && fire.index < |schedule| && s.cursor == Place(turn, |messages|)
    ensures var s' := Announce(s, schedule[fire.index], messages, fire, took);
            && s'.fires == s.fires + [fire] && s'.said == s.said + [TextFor(schedule, messages, fire, turn)]
            && s'.cursor == Place(if schedule[fire.index].message != "" then turn else turn + 1, |messages|)
  {
    PickedIsThere(s, schedule[fire.index], messages);
    CursorMoves(s.cursor, turn, messages);
  }

  /** Nothing was announced, or entry i with its proper text. */
  ghost predicate Says(s: State, s': State, schedule: seq<Entry>, messages: seq<string>, i: nat)
    requires messages != [] && i < |schedule|
  {
    var turn := Rotating(schedule, s.fires, |s.fires|);
    || (s'.fires == s.fires && s'.said == s.said && s'.cursor == s.cursor)
    || exists f: Fire ::
         && f.index == i && s'.fires == s.fires + [f] && s'.said == s.said + [TextFor(schedule, messages, f, turn)]
         && s'.cursor == Place(if schedule[i].message != "" then turn else turn + 1, |messages|)
  }

  lemma EntrySays(s: State, schedule: seq<Entry>, r: Round, i: nat, today: int)
    requires i < |schedule| && |r.walls| == |r.dispatches| == |schedule| && HasMessages(r.messages)
    requires CursorAt(s.cursor, s.fires, schedule, r.messages)
    ensures Says(s, FireEntry(s, schedule[i], i, today, r.mono, r.walls[i], r.messages, r.dispatches[i]), schedule,
                 r.messages, i)
  {
    var turn, d := Rotating(schedule, s.fires, |s.fires|), r.dispatches[i];
    match schedule[i] {
      case Daily(_, _) => AnnounceSays(s, schedule, r.messages, DailyFire(i, r.walls[i], d.ok), d.took, turn);
      case Every(period, _) =>
        AnnounceSays(s.(deadlines := s.deadlines[i := r.mono + period]), schedule, r.messages,
                     PeriodicFire(i, r.mono, r.mono + s.lag, d.ok), d.took, turn);
    }
  }

  lemma CursorSnoc(fires: seq<Fire>, schedule: seq<Entry>, messages: seq<string>, f: Fire, turn: nat)
    requires messages != [] && f.index < |schedule| && turn == Rotating(schedule, fires, |fires|)
    ensures CursorAt(Place(if schedule[f.index].message != "" then turn else turn + 1, |messages|), fires + [f],
                     schedule, messages)
  {
    RotatingSnoc(schedule, fires, f);
  }

  ghost predicate InTurn(s: State, schedule: seq<Entry>, messages: seq<string>)
    requires messages != []
  {
    && s.said == Texts(schedule, messages, s.fires, |s.fires|)
    && CursorAt(s.cursor, s.fires, schedule, messages)
  }

  lemma SaidByEntry(s: State, s': State, schedule: seq<Entry>, messages: seq<string>, i: nat)
    requires messages != [] && i < |schedule| && Says(s, s', schedule, messages, i) && InTurn(s, schedule, messages)
    ensures InTurn(s', schedule, messages)
  {
    var turn := Rotating(schedule, s.fires, |s.fires|);
    if s'.fires != s.fires {
      var f: Fire :|
        && f.index == i && s'.fires == s.fires + [f] && s'.said == s.said + [TextFor(schedule, messages, f, turn)]
        && s'.cursor == Place(if schedule[i].message != "" then turn else turn + 1, |messages|);
      SaidSnoc(s.fires, schedule, messages, f, turn);
      CursorSnoc(s.fires, schedule, messages, f, turn);
    }
  }

  lemma SaidByOneEntry(s: State, s': State, schedule: seq<Entry>, r: Round, i: nat)
    requires i < |schedule| && |r.walls| == |r.dispatches| == |schedule| && HasMessages(r.messages)
    requires s' == FireEntry(s, schedule[i], i, Date(r.planned), r.mono, r.walls[i], r.messages, r.dispatches[i])
    requires InTurn(s, schedule, r.messages)
    ensures InTurn(s', schedule, r.messages)
  {
    EntrySays(s, schedule, r, i, Date(r.planned));
    SaidByEntry(s, s', schedule, r.messages, i);
  }

  lemma {:induction false} SaidByPass(s: State, schedule: seq<Entry>, r: Round, n: nat)
    requires n <= |schedule| && |r.walls| == |r.dispatches| == |schedule| && HasMessages(r.messages)
    requires InTurn(s, schedule, r.messages)
    ensures InTurn(FirePass(s, schedule, r, n), schedule, r.messages)
  {
    if n == 0 {
    } else {
      SaidByPass(s, schedule, r, n - 1);
      SaidByOneEntry(FirePass(s, schedule, r, n - 1), FirePass(s, schedule, r, n), schedule, r, n - 1);
    }
  }

  lemma {:induction false} InTurnAlways(schedule: seq<Entry>, base: int, messages: seq<string>, rounds: seq<Round>,
                                        n: nat)
    requires Fits(schedule, rounds) && n <= |rounds| && HasMessages(messages)
    requires forall k :: 0 <= k < |rounds| ==> rounds[k].messages == messages
    ensures InTurn(After(schedule, base, rounds, n), schedule, messages)
  {
    if n == 0 {
    } else {
      assert rounds[n - 1] in rounds;
      InTurnAlways(schedule, base, messages, rounds, n - 1);
      SaidByPass(After(schedule, base, rounds, n - 1), schedule, rounds[n - 1], |schedule|);
    }
  }

  /** Over a run in which the list stays: an entry's literal message is sent as it is, and
      the announcements without one go round the list in order from its head, over all
      entries together and undisturbed by the literal ones. */
  lemma MessagesGoRound(schedule: seq<Entry>, base: int, messages: seq<string>, rounds: seq<Round>, k: nat)
    requires Fits(schedule, rounds) && HasMessages(messages)
    requires forall i :: 0 <= i < |rounds| ==> rounds[i].messages == messages
    requires k < |FiresAfter(schedule, base, rounds)|
    ensures var s := After(schedule, base, rounds, |rounds|);
            var i := s.fires[k].index;
            && |s.said| == |s.fires|
            && s.said[k] == if i < |schedule| && schedule[i].message != "" then schedule[i].message
                            else messages[Rotating(schedule, s.fires, k) % |messages|]
  {
    InTurnAlways(schedule, base, messages, rounds, |rounds|);
    var fires := FiresAfter(schedule, base, rounds);
    TextsAt(schedule, messages, fires, |fires|, k);
    PlaceIsMod(Rotating(schedule, fires, k), |messages|);
  }

  /** The state after the entries have been matched with the schedule. */
  function Reconciled(s: State, schedule: seq<Entry>, mono: int): State {
    s.(deadlines := map i: nat | i < |schedule| && schedule[i].Every? ::
         (if i in s.deadlines then s.deadlines[i] else mono + schedule[i].period),
       lastFired := map i | i in s.lastFired && i < |schedule| && schedule[i].Daily? :: s.lastFired[i])
  }

  ghost predicate OnlyDailyFired(s: State, schedule: seq<Entry>) {
    forall i :: i in s.lastFired ==> i < |schedule| && schedule[i].Daily?
  }

  lemma {:induction false} OnlyDailyFiredByPass(s: State, schedule: seq<Entry>, r: Round, n: nat)
    requires n <= |schedule| && |r.walls| == |r.dispatches| == |schedule| && OnlyDailyFired(s, schedule)
    ensures OnlyDailyFired(FirePass(s, schedule, r, n), schedule)
  {
    if n == 0 {
    } else {
      OnlyDailyFiredByPass(s, schedule, r, n - 1);
    }
  }

  lemma {:induction false} OnlyDailyFiredAlways(schedule: seq<Entry>, base: int, rounds: seq<Round>, n: nat)
    requires Fits(schedule, rounds) && n <= |rounds|
    ensures OnlyDailyFired(After(schedule, base, rounds, n), schedule)
  {
    if n == 0 {
    } else {
      assert rounds[n - 1] in rounds;
      OnlyDailyFiredAlways(schedule, base, rounds, n - 1);
      OnlyDailyFiredByPass(After(schedule, base, rounds, n - 1), schedule, rounds[n - 1], |schedule|);
    }
  }

  /** While the schedule stays, matching the entries with it changes nothing, in any
      round of any run. */
  lemma FixedScheduleStaysMatched(schedule: seq<Entry>, base: int, rounds: seq<Round>, n: nat, mono: int)
    requires Fits(schedule, rounds) && ValidPeriods(schedule) && n <= |rounds|
    ensures var s := After(schedule, base, rounds, n); Reconciled(s, schedule, mono) == s
  {
    PeriodicIsSpaced(schedule, base, rounds, n);
    OnlyDailyFiredAlways(schedule, base, rounds, n);
    var s := After(schedule, base, rounds, n);
    assert Reconciled(s, schedule, mono).deadlines == s.deadlines;
    assert Reconciled(s, schedule, mono).lastFired == s.lastFired;
  }

  // ----- the planned sleep ---------------------------------------------------------------------------------

  /** How long an entry may wait, by the samples taken for it. */
  function Wakeup(s: State, entry: Entry, i: nat, today: int, wall: int, mono: int): (r: int) {
    match entry
    case Daily(target, _) => SecondsUntilSlot(wall, target, Last(s, i) == Some(today))
    case Every(_, _) =>
      var deadline := if i in s.deadlines then s.deadlines[i] else mono;
      if deadline > mono then deadline - mono else 0
  }

  /** The shortest wait, or a minute when that is shorter. */
  ghost predicate IsPlan(sleep: int, s: State, schedule: seq<Entry>, today: int, walls: seq<int>, mono: int)
    requires |walls| == |schedule|
  {
    && 0 <= sleep <= 60000000
    && (forall i :: 0 <= i < |schedule| ==> sleep <= Wakeup(s, schedule[i], i, today, walls[i], mono))
    && (|| sleep == 60000000
        || exists i :: 0 <= i < |schedule| && sleep == Wakeup(s, schedule[i], i, today, walls[i], mono))
  }

  /** An entry is due at the time it is planned. */
  predicate DueNow(s: State, entry: Entry, i: nat, today: int, wall: int, mono: int) {
    match entry
    case Daily(target, _) => SlotDueNow(wall, target, Last(s, i) == Some(today))
    case Every(_, _) => i !in s.deadlines || s.deadlines[i] <= mono
  }

  lemma NoWaitMeansDue(s: State, entry: Entry, i: nat, today: int, wall: int, mono: int)
    requires entry.Daily? ==> Target(entry.target)
    ensures Wakeup(s, entry, i, today, wall, mono) >= 0
    ensures Wakeup(s, entry, i, today, wall, mono) == 0 <==> DueNow(s, entry, i, today, wall, mono)
  {
  }

  /** The loop goes on without sleeping exactly when some entry is due; so it spins as
      long as a due daily slot keeps failing. */
  lemma NoSleepExactly(sleep: int, s: State, schedule: seq<Entry>, today: int, walls: seq<int>, mono: int)
    requires ValidSchedule(schedule) && |walls| == |schedule| && IsPlan(sleep, s, schedule, today, walls, mono)
    ensures sleep == 0 <==> exists i :: 0 <= i < |schedule| && DueNow(s, schedule[i], i, today, walls[i], mono)
  {
    forall i | 0 <= i < |schedule|
      ensures Wakeup(s, schedule[i], i, today, walls[i], mono) >= 0
      ensures Wakeup(s, schedule[i], i, today, walls[i], mono) == 0 <==>
                DueNow(s, schedule[i], i, today, walls[i], mono)
    {
      NoWaitMeansDue(s, schedule[i], i, today, walls[i], mono);
    }
  }

  /** After a due slot was handled it is due at any later time of that date exactly when
      the dispatch failed or there was no message to send. */
  lemma FailedSlotStaysDue(s: State, entry: Entry, i: nat, today: int, mono: int, wall: int, messages: seq<string>,
                           d: Dispatch, later: int)
    requires entry.Daily? && Target(entry.target) && DueNow(s, entry, i, today, wall, mono)
    requires wall <= later && Date(later) == Date(wall) == today
    ensures DueNow(FireEntry(s, entry, i, today, mono, wall, messages, d), entry, i, today, later, mono) <==>
            !d.ok || (entry.message == "" && (messages == [] || messages[s.cursor % |messages|] == ""))
  {
  }

  /** Counted from its own sample, no entry becomes due within the planned sleep, unless
      it is a daily one caught by midnight between its samples; NotAfter holds at every
      round by DailyAlways. */
  lemma NothingIsSleptThrough(sleep: int, s: State, schedule: seq<Entry>, planned: int, walls: seq<int>, mono: int,
                              i: nat)
    requires ValidSchedule(schedule) && |walls| == |schedule| && i < |schedule| && planned <= walls[i]
    requires IsPlan(sleep, s, schedule, Date(planned), walls, mono) && NotAfter(s, schedule, planned)
    ensures schedule[i].Every? && sleep > 0 ==> i in s.deadlines && mono + sleep <= s.deadlines[i]
    ensures schedule[i].Daily? && !AcrossMidnight(Date(planned), walls[i], schedule[i].target, Last(s, i)) ==>
              forall w :: walls[i] <= w < walls[i] + sleep ==> !Due(w, schedule[i].target, Last(s, i))
  {
    assert sleep <= Wakeup(s, schedule[i], i, Date(planned), walls[i], mono);
    if schedule[i].Daily? {
      NotAfterLater(s, schedule, planned, walls[i]);
      DateForward(planned, walls[i]);
      WaitIsExact(walls[i], Date(planned), schedule[i].target, Last(s, i));
    }
  }

  /** In the excepted case the slot is due at its sample, and the wait is a day. */
  lemma AcrossMidnightIsLate(s: State, entry: Entry, i: nat, today: int, wall: int, mono: int)
    requires entry.Daily? && Target(entry.target) && AcrossMidnight(today, wall, entry.target, Last(s, i))
    ensures Due(wall, entry.target, Last(s, i))
    ensures Wakeup(s, entry, i, today, wall, mono) == TodayTarget(wall, entry.target) + DAY - wall > 0
  {
    DateOf(Date(wall), wall % DAY);
  }

  /** That case is reached, for any time of day: the slot fires on the first day; the next
      round takes its date just before midnight and its time on the new day. */
  lemma AcrossMidnightIsReached(target: int, base: int)
    requires Target(target)
    ensures var (schedule, rounds) :=
              ([Daily(target, "m")], [Round(target, base, [target], [Dispatch(true, 0)], [])]);
            && Fits(schedule, rounds) && AllForward(rounds)
            && AcrossMidnight(Date(DAY - 1), DAY + target, target, Last(After(schedule, base, rounds, 1), 0))
  {
    var schedule, r := [Daily(target, "m")], Round(target, base, [target], [Dispatch(true, 0)], []);
    DateOf(0, target);
    DateOf(0, DAY - 1);
    DateOf(1, target);
    var s0 := Started(schedule, base);
    assert After(schedule, base, [r], 0) == s0;
    assert FirePass(s0, schedule, r, 0) == s0;
    assert Last(FirePass(s0, schedule, r, 1), 0) == Some(0);
  }

  // ----- the worker ------------------------------------------------------------------------------------------

  class Worker {
    const schedule: seq<Entry>
    var lastFired: map<nat, int>
    var deadlines: map<nat, int>
    var cursor: nat
    ghost var fires: seq<Fire>
    ghost var said: seq<string>
    ghost var lag: nat

    ghost function Now(): State
      reads this
    {
      State(lastFired, deadlines, cursor, fires, said, lag)
    }

    constructor (schedule: seq<Entry>, base: int)
      ensures this.schedule == schedule && Now() == Started(schedule, base)
    {
      this.schedule := schedule;
      lastFired, cursor, fires, said, lag := map[], 0, [], [], 0;
      deadlines := map i: nat | i < |schedule| && schedule[i].Every? :: base + schedule[i].period;
    }

    method Reconcile(mono: int)
      modifies this
      ensures Now() == Reconciled(old(Now()), schedule, mono)
    {
      var i := 0;
      while i < |schedule|
        invariant 0 <= i <= |schedule|
        invariant lastFired == old(lastFired) && cursor == old(cursor)
        invariant fires == old(fires) && said == old(said) && lag == old(lag)
        invariant forall k: nat :: k in deadlines <==> k in old(deadlines) || (k < i && Periodic(schedule, k))
        invariant forall k: nat :: k in deadlines ==>
                    deadlines[k] == if k in old(deadlines) then old(deadlines)[k] else mono + schedule[k].period
      {
        if schedule[i].Every? && i !in deadlines {
          deadlines := deadlines[i := mono + schedule[i].period];
        }
        i := i + 1;
      }
      deadlines := map k | k in deadlines && Periodic(schedule, k) :: deadlines[k];
      lastFired := map k | k in lastFired && k < |schedule| && schedule[k].Daily? :: lastFired[k];
      assert deadlines == Reconciled(old(Now()), schedule, mono).deadlines;
    }

    method PlanSleep(planned: int, walls: seq<int>, mono: int) returns (sleep: int)
      requires ValidSchedule(schedule) && |walls| == |schedule|
      ensures IsPlan(sleep, Now(), schedule, Date(planned), walls, mono)
    {
      var today := Date(planned);
      sleep := MAX_SLEEP;
      var i := 0;
      while i < |schedule|
        invariant 0 <= i <= |schedule| && 0 <= sleep <= MAX_SLEEP
        invariant forall k :: 0 <= k < i ==> sleep <= Wakeup(Now(), schedule[k], k, today, walls[k], mono)
        invariant || sleep == MAX_SLEEP
                  || exists k :: 0 <= k < i && sleep == Wakeup(Now(), schedule[k], k, today, walls[k], mono)
      {
        var wait: int;
        match schedule[i] {
          case Daily(target, _) =>
            var firedToday := i in lastFired && lastFired[i] == today;
            wait := SecondsUntilSlot(walls[i], target, firedToday);
          case Every(_, _) =>
            var deadline := if i in deadlines then deadlines[i] else mono;
            wait := if deadline > mono then deadline - mono else 0;
        }
        assert wait == Wakeup(Now(), schedule[i], i, today, walls[i], mono);
        NoWaitMeansDue(Now(), schedule[i], i, today, walls[i], mono);
        if wait < sleep {
          sleep := wait;
        }
        i := i + 1;
      }
    }

    method TakeMessage(messages: seq<string>) returns (message: Option<string>)
      modifies this`cursor
      ensures (message, cursor) == NextMessage(messages, old(cursor))
    {
      if messages == [] {
        return None;
      }
      message := Some(messages[cursor % |messages|]);
      cursor := (cursor + 1) % |messages|;
    }

    /** The dispatch of one due entry. */
    method SendDue(i: nat, messages: seq<string>, d: Dispatch, ghost fire: Fire, wall: int)
      requires i < |schedule| && fire.index == i && fire.ok == d.ok
      requires fire.DailyFire? <==> schedule[i].Daily?
      requires fire.DailyFire? ==> fire.wall == wall
      modifies this
      ensures Now() == Announce(old(Now()), schedule[i], messages, fire, d.took)
    {
      var message := Some(schedule[i].message);
      if schedule[i].message == "" {
        message := TakeMessage(messages);
      }
      if message.None? || message.value == "" {
        return;
      }
      fires, said := fires + [fire], said + [message.value];
      lag := lag + d.took;
      if schedule[i].Daily? && d.ok {
        lastFired := lastFired[i := Date(wall)];
      }
    }

    /** One entry in the firing pass. */
    method FireOne(i: nat, r: Round)
      requires i < |schedule| && |r.walls| == |r.dispatches| == |schedule|
      modifies this
      ensures Now() == FireEntry(old(Now()), schedule[i], i, Date(r.planned), r.mono, r.walls[i], r.messages,
                                 r.dispatches[i])
    {
      var d := r.dispatches[i];
      match schedule[i] {
        case Daily(target, _) =>
          var firedToday := i in lastFired && lastFired[i] == Date(r.planned);
          if SlotDueNow(r.walls[i], target, firedToday) {
            SendDue(i, r.messages, d, DailyFire(i, r.walls[i], d.ok), r.walls[i]);
          }
        case Every(period, _) =>
          if i in deadlines && r.mono >= deadlines[i] {
            deadlines := deadlines[i := r.mono + period];
            SendDue(i, r.messages, d, PeriodicFire(i, r.mono, r.mono + lag, d.ok), r.mono);
          }
      }
    }

    method FireDue(r: Round)
      requires |r.walls| == |r.dispatches| == |schedule|
      modifies this
      ensures Now() == FirePass(old(Now()), schedule, r, |schedule|)
    {
      lag := 0;
      var i := 0;
      while i < |schedule|
        invariant 0 <= i <= |schedule| && Now() == FirePass(old(Now()), schedule, r, i)
      {
        FireOne(i, r);
        i := i + 1;
      }
    }
  }
}
