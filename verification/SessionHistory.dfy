/** What the supervisor's tracker knows, read off the history of lines: the tracked
    address and time of every slot, the re-initialisation window, the checks behind
    every tracked session, and the targets of the RCON guard. */
module SessionHistory {
  import opened Text
  import opened Dedupe
  import opened Tracker

  datatype Entry = Entry(line: Line, now: nat)

  predicate Ordered(h: seq<Entry>) {
    forall i, j :: 0 <= i < j < |h| ==> h[i].now <= h[j].now
  }

  /** The tracker after a history of lines. */
  function After(c: Config, h: seq<Entry>): State {
    if h == [] then INITIAL
    else Track(c, After(c, h[..|h| - 1]), h[|h| - 1].line, h[|h| - 1].now).0
  }

  /** The check, if any, started by line i of a history. */
  function CheckAt(c: Config, h: seq<Entry>, i: nat): Option<Check>
    requires i < |h|
  {
    Track(c, After(c, h[..i]), h[i].line, h[i].now).1
  }

  // ----- the tracked address ---------------------------------------------------

  /** The address a line gives to a slot: a connect, or userinfo that carries one. */
  function Gives(line: Line, slot: Slot): Option<Addr> {
    if line.Blank? then None
    else match line.body
      case Connect(s, addr, _) => if s == slot then Some(addr) else None
      case UserinfoChanged(s, newAddr, _) => if s == slot then newAddr else None
      case _ => None
  }

  predicate Ends(line: Line, slot: Slot) {
    line.Line? && line.body.Disconnect? && line.body.slot == slot
  }

  datatype Sighting = Sighting(addr: Addr, at: nat)

  /** The last address given to a slot since its last disconnect, and when. */
  function LastSighting(h: seq<Entry>, slot: Slot): Option<Sighting> {
    if h == [] then None
    else
      var last := h[|h| - 1];
      if Gives(last.line, slot).Some? then Some(Sighting(Gives(last.line, slot).value, last.now))
      else if Ends(last.line, slot) then None
      else LastSighting(h[..|h| - 1], slot)
  }

  function Tracked(s: State, slot: Slot): Option<Sighting> {
    if slot in s.conns then Some(Sighting(s.conns[slot].addr, s.conns[slot].seenAt)) else None
  }

  lemma ProcessKeepsTracked(c: Config, s: State, slot: Slot, addr: Addr, trigger: Trigger, now: nat)
    ensures Process(c, s, slot, addr, trigger, now).0.conns == s.conns
  {
  }

  lemma StoredSlot(s: State, slot: Slot, addr: Addr, name: string, now: nat, other: Slot)
    ensures Tracked(Store(s, slot, addr, name, now), other) ==
            if other == slot then Some(Sighting(addr, now)) else Tracked(s, other)
  {
  }

  lemma OneLineTracks(c: Config, s: State, line: Line, now: nat, slot: Slot)
    ensures Tracked(Track(c, s, line, now).0, slot) ==
            if Gives(line, slot).Some? then Some(Sighting(Gives(line, slot).value, now))
            else if Ends(line, slot) then None
            else Tracked(s, slot)
  {
    if line.Line? {
      var s1 := MarkLine(c, s, line, now);
      match line.body {
        case Connect(who, addr, name) =>
          StoredSlot(s1, who, addr, name, now, slot);
          ProcessKeepsTracked(c, Store(s1, who, addr, name, now), who, addr, Classify(s1, who, addr, now), now);
        case UserinfoChanged(who, newAddr, name) =>
          if newAddr.Some? {
            StoredSlot(s1, who, newAddr.value, name, now, slot);
            ProcessKeepsTracked(c, Store(s1, who, newAddr.value, name, now), who, newAddr.value, Userinfo, now);
          }
        case _ =>
      }
    }
  }

  /** A slot is tracked at an address exactly when its history says so. */
  lemma {:induction false} TrackerRefinesHistory(c: Config, h: seq<Entry>, slot: Slot)
    ensures Tracked(After(c, h), slot) == LastSighting(h, slot)
  {
    if h == [] {
    } else {
      var n := |h| - 1;
      TrackerRefinesHistory(c, h[..n], slot);
      OneLineTracks(c, After(c, h[..n]), h[n].line, h[n].now, slot);
    }
  }

  // ----- the tracked name --------------------------------------------------------

  /** The name a line gives to a slot, "" for none. */
  function NameGiven(line: Line, slot: Slot): string {
    if line.Blank? then ""
    else match line.body
      case Connect(s, _, name) => if s == slot then name else ""
      case UserinfoChanged(s, _, name) => if s == slot then name else ""
      case _ => ""
  }

  /** The last name that is not blank among the lines since the slot was first sighted
      after its last disconnect. */
  function LastName(h: seq<Entry>, slot: Slot): string {
    if h == [] || LastSighting(h, slot).None? then ""
    else
      var name := NameGiven(h[|h| - 1].line, slot);
      if TrimSpace(name) != "" then name else LastName(h[..|h| - 1], slot)
  }

  function TrackedName(s: State, slot: Slot): string {
    if slot in s.conns then s.conns[slot].name else ""
  }

  /** How the name of a slot goes on after a line that gives it the name. */
  predicate Renames(s: State, s': State, slot: Slot, given: string) {
    TrackedName(s', slot) ==
    if slot !in s'.conns then "" else if TrimSpace(given) != "" then given else TrackedName(s, slot)
  }

  lemma ConnectNames(c: Config, s: State, who: Slot, addr: Addr, name: string, trigger: Trigger, now: nat, slot: Slot)
    ensures Renames(s, Process(c, Store(s, who, addr, name, now), who, addr, trigger, now).0, slot,
                    if who == slot then name else "")
    ensures Renames(s, Store(s, who, addr, name, now), slot, if who == slot then name else "")
  {
    ProcessKeepsTracked(c, Store(s, who, addr, name, now), who, addr, trigger, now);
  }

  lemma UserinfoNames(c: Config, s: State, who: Slot, newAddr: Option<Addr>, name: string, now: nat, slot: Slot)
    ensures Renames(s, TrackUserinfo(c, s, who, newAddr, name, now).0, slot, if who == slot then name else "")
  {
    if newAddr.Some? {
      ConnectNames(c, s, who, newAddr.value, name, Userinfo, now, slot);
    }
  }

  /** How one line changes the tracked name. */
  lemma OneLineNames(c: Config, s: State, line: Line, now: nat, slot: Slot)
    ensures Renames(s, Track(c, s, line, now).0, slot, NameGiven(line, slot))
  {
    if line.Line? {
      var s1 := MarkLine(c, s, line, now);
      assert s1.conns == s.conns;
      match line.body {
        case Connect(who, addr, name) => ConnectNames(c, s1, who, addr, name, Classify(s1, who, addr, now), now, slot);
        case UserinfoChanged(who, newAddr, name) => UserinfoNames(c, s1, who, newAddr, name, now, slot);
        case _ =>
      }
    }
  }

  /** A tracked slot carries the last name its session's lines gave it. */
  lemma {:induction false} NameRefinesHistory(c: Config, h: seq<Entry>, slot: Slot)
    ensures TrackedName(After(c, h), slot) == LastName(h, slot)
  {
    TrackerRefinesHistory(c, h, slot);
    if h == [] {
    } else {
      var n := |h| - 1;
      NameRefinesHistory(c, h[..n], slot);
      OneLineNames(c, After(c, h[..n]), h[n].line, h[n].now, slot);
      TrackerRefinesHistory(c, h[..n], slot);
    }
  }

  // ----- the re-initialisation window --------------------------------------------

  predicate IsMarker(line: Line) { line.Line? && line.burst }

  /** Less than five seconds, or less than thirty and than eight spacings. */
  predicate Recent(c: Config, age: int) {
    age < 5000 || (age < 30000 && age < 8 * c.emissionSpacing)
  }

  ghost predicate RecentMarker(c: Config, h: seq<Entry>, now: nat) {
    exists i :: 0 <= i < |h| && IsMarker(h[i].line) && Recent(c, now - h[i].now)
  }

  lemma OneLineMarks(c: Config, s: State, line: Line, now: nat)
    ensures Track(c, s, line, now).0.burstUntil == MarkLine(c, s, line, now).burstUntil
  {
  }

  /** The window is open at an instant exactly when some marker is younger than eight
      spacings, clamped to 5 s and 30 s, at whatever instant it is asked. */
  lemma {:induction false} WindowRefinesMarkers(c: Config, h: seq<Entry>, now: nat)
    ensures now < After(c, h).burstUntil <==> RecentMarker(c, h, now)
  {
    if h == [] {
    } else {
      var n := |h| - 1;
      var s := After(c, h[..n]);
      WindowRefinesMarkers(c, h[..n], now);
      OneLineMarks(c, s, h[n].line, h[n].now);
      if now < After(c, h).burstUntil {
        if now < s.burstUntil {
          var i :| 0 <= i < n && IsMarker(h[..n][i].line) && Recent(c, now - h[..n][i].now);
          assert h[i] == h[..n][i];
        } else {
          assert IsMarker(h[n].line);
        }
      }
      if RecentMarker(c, h, now) {
        var i :| 0 <= i < |h| && IsMarker(h[i].line) && Recent(c, now - h[i].now);
        assert i < n ==> h[..n][i] == h[i];
      }
    }
  }

  /** The kind of connect that a line is treated as. */
  function ConnectKind(c: Config, h: seq<Entry>, e: Entry): Trigger
    requires e.line.Line? && e.line.body.Connect?
  {
    Classify(MarkLine(c, After(c, h), e.line, e.now), e.line.body.slot, e.line.body.addr, e.now)
  }

  /** A connect is a re-emission exactly when a marker is recent and its slot was
      last seen, with no disconnect since, at the same address. */
  lemma ReinitConnectExactly(c: Config, h: seq<Entry>, e: Entry)
    requires e.line.Line? && e.line.body.Connect?
    ensures ConnectKind(c, h, e) == ReinitConnect <==>
            && RecentMarker(c, h + [e], e.now)
            && LastSighting(h, e.line.body.slot).Some?
            && LastSighting(h, e.line.body.slot).value.addr == e.line.body.addr
    ensures CheckAt(c, h + [e], |h|).Some? ==> CheckAt(c, h + [e], |h|).value.trigger == ConnectKind(c, h, e)
  {
    var all := h + [e];
    assert all[..|all| - 1] == h;
    WindowRefinesMarkers(c, all, e.now);
    OneLineMarks(c, After(c, h), e.line, e.now);
    TrackerRefinesHistory(c, h, e.line.body.slot);
  }

  // ----- no tracked session goes unchecked -----------------------------------------

  /** When the slot's present pairing with its address began. */
  function Since(h: seq<Entry>, slot: Slot): nat
    requires LastSighting(h, slot).Some?
  {
    var front := h[..|h| - 1];
    var given := Gives(h[|h| - 1].line, slot);
    if given.Some? && !(LastSighting(front, slot).Some? && LastSighting(front, slot).value.addr == given.value)
    then h[|h| - 1].now
    else Since(front, slot)
  }

  /** Line j started a check of the pair. */
  predicate Launched(c: Config, h: seq<Entry>, j: nat, key: Key)
    requires j < |h|
  {
    CheckAt(c, h, j).Some? && CheckAt(c, h, j).value.slot == key.0 && CheckAt(c, h, j).value.addr == key.1
  }

  lemma LaunchedPrefix(c: Config, h: seq<Entry>, n: nat, j: nat, key: Key)
    requires j < n <= |h|
    ensures Launched(c, h[..n], j, key) <==> Launched(c, h, j, key)
  {
    assert h[..n][..j] == h[..j];
  }

  /** Where a dedupe entry can come from in one line. */
  lemma OneLineMarksSeen(c: Config, s: State, line: Line, now: nat, key: Key)
    requires key in Track(c, s, line, now).0.seen
    ensures var (s', check) := Track(c, s, line, now);
            || (key in s.seen && s'.seen[key] == s.seen[key])
            || (s'.seen[key] == now && check.Some? && check.value.slot == key.0 && check.value.addr == key.1)
  {
    if line.Line? {
      BodyMarksSeen(c, MarkLine(c, s, line, now), line.body, now, key);
    }
  }

  lemma ProcessMarksSeen(c: Config, s: State, slot: Slot, addr: Addr, trigger: Trigger, now: nat, key: Key)
    requires key in Process(c, s, slot, addr, trigger, now).0.seen
    ensures var (s', check) := Process(c, s, slot, addr, trigger, now);
            || (key in s.seen && s'.seen[key] == s.seen[key])
            || (s'.seen[key] == now && check.Some? && check.value.slot == key.0 && check.value.addr == key.1)
  {
  }

  lemma BodyMarksSeen(c: Config, s: State, body: Body, now: nat, key: Key)
    requires key in TrackBody(c, s, body, now).0.seen
    ensures var (s', check) := TrackBody(c, s, body, now);
            || (key in s.seen && s'.seen[key] == s.seen[key])
            || (s'.seen[key] == now && check.Some? && check.value.slot == key.0 && check.value.addr == key.1)
  {
    match body {
      case Connect(slot, addr, name) =>
        ProcessMarksSeen(c, Store(s, slot, addr, name, now), slot, addr, Classify(s, slot, addr, now), now, key);
      case UserinfoChanged(slot, newAddr, name) =>
        if newAddr.Some? && !(slot in s.conns && s.conns[slot].addr == newAddr.value) {
          ProcessMarksSeen(c, Store(s, slot, newAddr.value, name, now), slot, newAddr.value, Userinfo, now, key);
        }
      case _ =>
    }
  }

  /** Every dedupe entry is the instant of a check that was started. */
  lemma {:induction false} SeenEntriesWereChecked(c: Config, h: seq<Entry>, key: Key)
    requires key in After(c, h).seen
    ensures exists j: nat :: j < |h| && Launched(c, h, j, key) && h[j].now == After(c, h).seen[key]
  {
    var n := |h| - 1;
    var s := After(c, h[..n]);
    OneLineMarksSeen(c, s, h[n].line, h[n].now, key);
    if key in s.seen && After(c, h).seen[key] == s.seen[key] {
      SeenEntriesWereChecked(c, h[..n], key);
      var j: nat :| j < n && Launched(c, h[..n], j, key) && h[..n][j].now == s.seen[key];
      LaunchedPrefix(c, h, n, j, key);
    } else {
      assert Launched(c, h, n, key);
    }
  }

  lemma ProcessChecksOrKnows(c: Config, s: State, slot: Slot, addr: Addr, trigger: Trigger, now: nat)
    requires c.engine
    ensures Process(c, s, slot, addr, trigger, now).1 == Some(Check(slot, addr, trigger))
            || ((slot, addr) in s.seen && now - s.seen[(slot, addr)] < c.dedupeInterval)
  {
  }

  /** A line that gives a slot a new address starts a check of the pair, or finds a
      dedupe entry younger than the interval. */
  lemma NewPairIsProcessed(c: Config, s: State, line: Line, now: nat, slot: Slot, addr: Addr)
    requires c.engine && Gives(line, slot) == Some(addr)
    requires !(slot in s.conns && s.conns[slot].addr == addr)
    ensures var check := Track(c, s, line, now).1;
            || (check.Some? && check.value.slot == slot && check.value.addr == addr)
            || ((slot, addr) in s.seen && now - s.seen[(slot, addr)] < c.dedupeInterval)
  {
    var s1 := MarkLine(c, s, line, now);
    match line.body {
      case Connect(_, _, name) =>
        ProcessChecksOrKnows(c, Store(s1, slot, addr, name, now), slot, addr, Classify(s1, slot, addr, now), now);
      case UserinfoChanged(_, _, name) =>
        ProcessChecksOrKnows(c, Store(s1, slot, addr, name, now), slot, addr, Userinfo, now);
    }
  }

  /** With an engine, after every line of every run each tracked pair has a started
      check, no older than the dedupe interval before the pairing began. */
  lemma {:induction false} NoSessionGoesUnchecked(c: Config, h: seq<Entry>, slot: Slot)
    requires c.engine && Ordered(h)
    requires slot in After(c, h).conns
    ensures LastSighting(h, slot).Some? && LastSighting(h, slot).value.addr == After(c, h).conns[slot].addr
    ensures exists j: nat :: j < |h| && Launched(c, h, j, (slot, After(c, h).conns[slot].addr))
                             && h[j].now <= Since(h, slot) <= h[j].now + c.dedupeInterval
  {
    TrackerRefinesHistory(c, h, slot);
    var n := |h| - 1;
    var front := h[..n];
    var s := After(c, front);
    var addr := After(c, h).conns[slot].addr;
    TrackerRefinesHistory(c, front, slot);
    OneLineTracks(c, s, h[n].line, h[n].now, slot);
    if slot in s.conns && s.conns[slot].addr == addr {
      NoSessionGoesUnchecked(c, front, slot);
      var j: nat :| j < n && Launched(c, front, j, (slot, addr))
                    && front[j].now <= Since(front, slot) <= front[j].now + c.dedupeInterval;
      LaunchedPrefix(c, h, n, j, (slot, addr));
      assert Since(h, slot) == Since(front, slot);
      assert h[j] == front[j];
    } else {
      NewPairIsProcessed(c, s, h[n].line, h[n].now, slot, addr);
      assert Since(h, slot) == h[n].now;
      if Launched(c, h, n, (slot, addr)) {
      } else {
        SeenEntriesWereChecked(c, front, (slot, addr));
        var j: nat :| j < n && Launched(c, front, j, (slot, addr)) && front[j].now == s.seen[(slot, addr)];
        LaunchedPrefix(c, h, n, j, (slot, addr));
        assert h[j] == front[j];
      }
    }
  }

  /** After a disconnect the pair that was tracked is checked again at its next
      appearance, even inside the interval. */
  lemma DisconnectAllowsAFreshCheck(c: Config, h: seq<Entry>, e: Entry, slot: Slot, addr: Addr, name: string, now: nat)
    requires c.engine && Ends(e.line, slot)
    requires LastSighting(h, slot).Some? && LastSighting(h, slot).value.addr == addr
    ensures Track(c, After(c, h + [e]), Line(false, Connect(slot, addr, name)), now).1 ==
            Some(Check(slot, addr, RealConnect))
  {
    TrackerRefinesHistory(c, h, slot);
    assert (h + [e])[..|h + [e]| - 1] == h;
  }

  /** Line j is a disconnect of the slot while the history has it at the address. */
  predicate Releases(h: seq<Entry>, j: nat, key: Key)
    requires j < |h|
  {
    Ends(h[j].line, key.0) && LastSighting(h[..j], key.0).Some? && LastSighting(h[..j], key.0).value.addr == key.1
  }

  /** Line k started a check of the pair, and no line since has released it. */
  ghost predicate Stands(c: Config, h: seq<Entry>, k: nat, key: Key)
    requires k < |h|
  {
    Launched(c, h, k, key) && forall j :: k < j < |h| ==> !Releases(h, j, key)
  }

  lemma ReleasesPrefix(h: seq<Entry>, n: nat, j: nat, key: Key)
    requires j < n <= |h|
    ensures Releases(h[..n], j, key) <==> Releases(h, j, key)
  {
    assert h[..n][..j] == h[..j];
  }

  lemma StandsPrefix(c: Config, h: seq<Entry>, k: nat, key: Key)
    requires k < |h| - 1
    ensures Stands(c, h, k, key) <==> Stands(c, h[..|h| - 1], k, key) && !Releases(h, |h| - 1, key)
  {
    var n := |h| - 1;
    LaunchedPrefix(c, h, n, k, key);
    forall j: nat | k < j < n
      ensures Releases(h[..n], j, key) <==> Releases(h, j, key)
    {
      ReleasesPrefix(h, n, j, key);
    }
  }

  /** How one line treats a dedupe entry: it stays or is renewed, unless it is behind the
      horizon or its pair leaves. */
  lemma OneLineKeepsSeen(c: Config, s: State, line: Line, now: nat, key: Key)
    requires key in s.seen && s.seen[key] <= now
    ensures var s' := Track(c, s, line, now).0;
            || (key in s'.seen && s.seen[key] <= s'.seen[key])
            || now - s.seen[key] > 300000
            || (Ends(line, key.0) && key.0 in s.conns && s.conns[key.0].addr == key.1)
  {
    if line.Line? {
      BodyKeepsSeen(c, MarkLine(c, s, line, now), line.body, now, key);
    }
  }

  lemma BodyKeepsSeen(c: Config, s: State, body: Body, now: nat, key: Key)
    requires key in s.seen && s.seen[key] <= now
    ensures var s' := TrackBody(c, s, body, now).0;
            || (key in s'.seen && s.seen[key] <= s'.seen[key])
            || now - s.seen[key] > 300000
            || (body.Disconnect? && body.slot == key.0 && key.0 in s.conns && s.conns[key.0].addr == key.1)
  {
  }

  /** A line that releases a pair leaves no entry of it. */
  lemma ReleaseForgets(c: Config, h: seq<Entry>, key: Key)
    requires h != [] && Releases(h, |h| - 1, key)
    ensures key !in After(c, h).seen
  {
    TrackerRefinesHistory(c, h[..|h| - 1], key.0);
  }

  /** Every dedupe entry is the instant of a check that stands. */
  lemma {:induction false} EntriesStand(c: Config, h: seq<Entry>, key: Key)
    requires key in After(c, h).seen
    ensures exists k: nat :: k < |h| && Stands(c, h, k, key) && h[k].now == After(c, h).seen[key]
  {
    var n := |h| - 1;
    var s := After(c, h[..n]);
    OneLineMarksSeen(c, s, h[n].line, h[n].now, key);
    if key in s.seen && After(c, h).seen[key] == s.seen[key] {
      EntriesStand(c, h[..n], key);
      var k: nat :| k < n && Stands(c, h[..n], k, key) && h[..n][k].now == s.seen[key];
      if Releases(h, n, key) {
        ReleaseForgets(c, h, key);
      }
      StandsPrefix(c, h, k, key);
      assert h[k] == h[..n][k];
    } else {
      assert Stands(c, h, n, key);
    }
  }

  /** A started check is marked at its instant. */
  lemma LaunchMarks(c: Config, h: seq<Entry>, key: Key)
    requires h != [] && Launched(c, h, |h| - 1, key)
    ensures key in After(c, h).seen && After(c, h).seen[key] == h[|h| - 1].now
  {
    LineMarksItsCheck(c, After(c, h[..|h| - 1]), h[|h| - 1].line, h[|h| - 1].now, key);
  }

  lemma ProcessMarksItsCheck(c: Config, s: State, slot: Slot, addr: Addr, trigger: Trigger, now: nat)
    ensures var (s', check) := Process(c, s, slot, addr, trigger, now);
            check.Some? ==>
              check.value == Check(slot, addr, trigger) && (slot, addr) in s'.seen && s'.seen[(slot, addr)] == now
  {
  }

  lemma LineMarksItsCheck(c: Config, s: State, line: Line, now: nat, key: Key)
    requires var check := Track(c, s, line, now).1;
             check.Some? && check.value.slot == key.0 && check.value.addr == key.1
    ensures var s' := Track(c, s, line, now).0; key in s'.seen && s'.seen[key] == now
  {
    var s1 := MarkLine(c, s, line, now);
    match line.body {
      case Connect(slot, addr, name) =>
        ProcessMarksItsCheck(c, Store(s1, slot, addr, name, now), slot, addr, Classify(s1, slot, addr, now), now);
      case UserinfoChanged(slot, newAddr, name) =>
        ProcessMarksItsCheck(c, Store(s1, slot, newAddr.value, name, now), slot, newAddr.value, Userinfo, now);
    }
  }

  /** A check that stands is remembered, or overtaken by a later one, until it is behind
      the horizon. */
  lemma {:induction false} StandingIsRemembered(c: Config, h: seq<Entry>, k: nat, key: Key, now: nat)
    requires Ordered(h) && (forall i :: 0 <= i < |h| ==> h[i].now <= now)
    requires k < |h| && Stands(c, h, k, key)
    ensures var s := After(c, h);
            (key in s.seen && h[k].now <= s.seen[key]) || now - h[k].now > 300000
  {
    var n := |h| - 1;
    if k == n {
      LaunchMarks(c, h, key);
    } else {
      var front := h[..n];
      StandsPrefix(c, h, k, key);
      StandingIsRemembered(c, front, k, key, h[n].now);
      var s := After(c, front);
      if key in s.seen {
        EntriesStand(c, front, key);
        OneLineKeepsSeen(c, s, h[n].line, h[n].now, key);
        TrackerRefinesHistory(c, front, key.0);
      }
    }
  }

  /** A check of the pair that stands and is younger than the interval and the
      horizon. */
  ghost predicate RecentlyChecked(c: Config, h: seq<Entry>, key: Key, now: nat) {
    exists k: nat :: k < |h| && Stands(c, h, k, key)
                     && now - h[k].now < c.dedupeInterval && now - h[k].now <= 300000
  }

  /** After any history, a connect is checked exactly when no check of its pair, not
      released by a disconnect of the slot at that address, is younger than the
      interval and the horizon; other addresses of the slot release nothing. */
  lemma FreshCheckExactly(c: Config, h: seq<Entry>, slot: Slot, addr: Addr, name: string, burst: bool, now: nat)
    requires c.engine && Ordered(h) && (forall i :: 0 <= i < |h| ==> h[i].now <= now)
    ensures Track(c, After(c, h), Line(burst, Connect(slot, addr, name)), now).1.Some? <==>
            !RecentlyChecked(c, h, (slot, addr), now)
  {
    var s, key := After(c, h), (slot, addr);
    ConnectAsksTheTable(c, s, slot, addr, name, burst, now);
    if key in s.seen {
      EntriesStand(c, h, key);
    }
    forall k: nat | k < |h| && Stands(c, h, k, key)
      ensures (key in s.seen && h[k].now <= s.seen[key]) || now - h[k].now > 300000
    {
      StandingIsRemembered(c, h, k, key, now);
    }
  }

  lemma ConnectAsksTheTable(c: Config, s: State, slot: Slot, addr: Addr, name: string, burst: bool, now: nat)
    requires c.engine
    ensures var key := (slot, addr);
            Track(c, s, Line(burst, Connect(slot, addr, name)), now).1.Some? <==>
            !(key in s.seen && now - s.seen[key] <= 300000 && now - s.seen[key] < c.dedupeInterval)
  {
  }

  /** Another address of the slot keeps its entry: seen at a, moved to b, left, and
      back at a inside the interval, the player at a is not checked again. */
  lemma DisconnectKeepsOtherAddresses(c: Config, slot: Slot, a: Addr, b: Addr)
    requires c.engine && a != b && 3 < c.dedupeInterval
    ensures var (s1, first) := Track(c, INITIAL, Line(false, Connect(slot, a, "p")), 0);
            var (s2, moved) := Track(c, s1, Line(false, Connect(slot, b, "p")), 1);
            var (s3, _) := Track(c, s2, Line(false, Disconnect(slot)), 2);
            first.Some? && moved.Some? && Track(c, s3, Line(false, Connect(slot, a, "p")), 3).1.None?
  {
    var s1 := Track(c, INITIAL, Line(false, Connect(slot, a, "p")), 0).0;
    assert (slot, a) in s1.seen && s1.seen[(slot, a)] == 0 && (slot, b) !in s1.seen;
    var s2 := Track(c, s1, Line(false, Connect(slot, b, "p")), 1).0;
    assert (slot, a) in s2.seen && s2.seen[(slot, a)] == 0 && s2.conns[slot].addr == b;
    var s3 := Track(c, s2, Line(false, Disconnect(slot)), 2).0;
    assert (slot, a) in s3.seen && s3.seen[(slot, a)] == 0;
  }

  // ----- the guard's targets --------------------------------------------------------

  /** Whatever slot the guard kicks is, by the history, at the source address and the
      most recently seen one there. */
  lemma GuardKicksTheLatestAtTheSource(c: Config, h: seq<Entry>, host: string, ip: Option<Addr>, works: bool,
                                       written: seq<Command>, k: nat)
    requires GuardWrites(c, After(c, h).conns, host, ip, works, written)
    requires k < |written| && written[k].ClientKick?
    ensures k == 0 && written[1..] == if works && c.guardBroadcast then [SayKicked(written[0].slot)] else []
    ensures ip.Some? && LastSighting(h, written[k].slot).Some?
    ensures var target := LastSighting(h, written[k].slot).value;
            target.addr == ip.value
            && forall other :: LastSighting(h, other).Some? && LastSighting(h, other).value.addr == ip.value ==>
                 LastSighting(h, other).value.at <= target.at
  {
    var conns := After(c, h).conns;
    var slot :| IsLatestAt(conns, ip.value, slot)
                && written == [ClientKick(slot)] + if works && c.guardBroadcast then [SayKicked(slot)] else [];
    TrackerRefinesHistory(c, h, slot);
    forall other | LastSighting(h, other).Some? && LastSighting(h, other).value.addr == ip.value
      ensures LastSighting(h, other).value.at <= LastSighting(h, slot).value.at
    {
      TrackerRefinesHistory(c, h, other);
    }
  }

  /** The ignore list has the host, trimmed and in lower case, or the address. */
  ghost predicate Trusts(c: Config, host: string, ip: Addr) {
    exists e :: e in c.guardIgnored && e.text != "" && (e.text == ToLower(TrimSpace(host)) || e.parsed == Some(ip))
  }

  /** Its action, trimmed and in any case, is to kick, or left empty. */
  predicate Kicks(c: Config) {
    TrimSpace(c.guardAction) == "" || ToLower(TrimSpace(c.guardAction)) == "kick"
  }

  lemma GuardMeans(c: Config, host: string, ip: Addr)
    ensures IsIgnored(c.guardIgnored, host, Some(ip)) <==> Trusts(c, host, ip)
    ensures GuardAction(c) == "kick" <==> Kicks(c)
  {
    assert ToLower("") == "";
    if GuardAction(c) == "kick" && TrimSpace(c.guardAction) != "" {
      assert ToLower(TrimSpace(c.guardAction)) != "";
    }
  }

  /** A guard that is on, for kicks, and does not trust the source stays silent exactly
      when the history has no slot at the source address; any other guard always does. */
  lemma GuardIsSilentOnlyForStrangers(c: Config, h: seq<Entry>, host: string, ip: Addr, works: bool,
                                      written: seq<Command>)
    requires GuardWrites(c, After(c, h).conns, host, Some(ip), works, written)
    ensures written == [] <==>
            || !c.guardEnabled || Trusts(c, host, ip) || !Kicks(c)
            || forall slot :: LastSighting(h, slot).Some? ==> LastSighting(h, slot).value.addr != ip
  {
    GuardMeans(c, host, ip);
    forall slot
      ensures Tracked(After(c, h), slot) == LastSighting(h, slot)
    {
      TrackerRefinesHistory(c, h, slot);
    }
    var conns := After(c, h).conns;
    if GuardActs(c, conns, host, Some(ip)) {
      assert written != [];
      var slot :| slot in conns && conns[slot].addr == ip;
      assert LastSighting(h, slot) == Some(Sighting(ip, conns[slot].seenAt));
    } else if c.guardEnabled && !Trusts(c, host, ip) && Kicks(c) {
      assert forall slot :: slot in conns ==> conns[slot].addr != ip;
      assert forall slot :: LastSighting(h, slot) == Tracked(After(c, h), slot);
    }
  }

  // ----- dedupe keys ------------------------------------------------------------------

  /** The text the program uses as key. */
  function KeyText(key: Key): string {
    key.0.digits + "|" + key.1.text
  }

  /** Slots are digits, so different pairs have different texts. */
  lemma KeysDoNotCollide(a: Key, b: Key)
    requires '|' !in a.0.digits && '|' !in b.0.digits
    requires KeyText(a) == KeyText(b)
    ensures a == b
  {
    IndexOfFirst(a.0.digits, '|', a.1.text);
    IndexOfFirst(b.0.digits, '|', b.1.text);
    var n := |a.0.digits|;
    assert KeyText(a)[..n] == a.0.digits && KeyText(b)[..n] == b.0.digits;
    assert KeyText(a)[n + 1..] == a.1.text && KeyText(b)[n + 1..] == b.1.text;
  }
}
