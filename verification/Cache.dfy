/** The decision cache of internal/antivpn/cache.go: entries in memory with an expiry,
    written behind to a file. Instants are integers. */
module Cache {
  import opened Text

  /** A decision as far as the cache looks at it; no expiry is Go's zero time. */
  datatype Decision = Decision(ip: string, expiresAt: Option<int>, fromCache: bool, verdict: string)

  type Entries = map<string, Decision>

  /** Get's test: past its expiry. */
  predicate Expired(d: Decision, now: int) { d.expiresAt.Some? && now > d.expiresAt.value }

  /** load's test: before its expiry. */
  predicate Loadable(d: Decision, now: int) { d.expiresAt.None? || now < d.expiresAt.value }

  /** The two tests agree except at the exact expiry instant. */
  lemma TestsAgreeExactly(d: Decision, now: int)
    ensures (Loadable(d, now) <==> !Expired(d, now)) <==> d.expiresAt != Some(now)
  {
  }

  function Fresh(m: Entries, now: int): Entries {
    map ip | ip in m && Loadable(m[ip], now) :: m[ip]
  }

  /** The file at the cache's path. */
  datatype File = Missing | Garbled | Holds(entries: Entries)

  /** What a new cache loads: a failed read or a garbled file gives an empty cache. */
  function Loaded(hasPath: bool, file: File, readWorks: bool, now: int): Entries {
    if !hasPath || !readWorks || !file.Holds? then map[] else Fresh(file.entries, now)
  }

  /** How a save turns out: the directory, the staging file or the rename may fail. */
  datatype Save = DirFails | StageFails | RenameFails | Saved

  // ----- the program's object -------------------------------------------------------

  class DecisionCache {
    const hasPath: bool
    var entries: Entries
    var dirty: bool
    var file: File

    constructor (hasPath: bool, file: File, readWorks: bool, now: int)
      ensures this.hasPath == hasPath && this.file == file && !dirty
      ensures entries == Loaded(hasPath, file, readWorks, now)
    {
      this.hasPath, this.file, dirty := hasPath, file, false;
      entries := Loaded(hasPath, file, readWorks, now);
    }

    /** The read-locked part of Get. */
    method Read(ip: string, now: int) returns (found: Option<Decision>, expired: bool)
      ensures ip !in entries ==> found.None? && !expired
      ensures ip in entries && Expired(entries[ip], now) ==> found.None? && expired
      ensures ip in entries && !Expired(entries[ip], now) ==> found == Some(entries[ip].(fromCache := true)) && !expired
    {
      if ip !in entries {
        return None, false;
      }
      var decision := entries[ip];
      if decision.expiresAt.Some? && now > decision.expiresAt.value {
        return None, true;
      }
      return Some(decision.(fromCache := true)), false;
    }

    /** The write-locked part of Get. */
    method Delete(ip: string)
      modifies this`entries, this`dirty
      ensures entries == old(entries) - {ip} && dirty
    {
      entries := entries - {ip};
      dirty := true;
    }

    /** Get, when nothing happens between its two locked parts. */
    method Get(ip: string, now: int) returns (found: Option<Decision>)
      modifies this`entries, this`dirty
      ensures found.Some? <==> ip in old(entries) && !Expired(old(entries)[ip], now)
      ensures found.Some? ==> found.value == old(entries)[ip].(fromCache := true)
      ensures ip in old(entries) && found.None? ==> entries == old(entries) - {ip} && dirty
      ensures ip !in old(entries) || found.Some? ==> entries == old(entries) && dirty == old(dirty)
    {
      var expired: bool;
      found, expired := Read(ip, now);
      if expired {
        Delete(ip);
      }
    }

    method Set(decision: Decision)
      modifies this`entries, this`dirty
      ensures entries == old(entries)[decision.ip := decision] && dirty
    {
      entries := entries[decision.ip := decision];
      dirty := true;
    }

    method SaveLocked(outcome: Save) returns (works: bool)
      modifies this`file
      ensures works <==> !hasPath || outcome.Saved?
      ensures file == if hasPath && outcome.Saved? then Holds(entries) else old(file)
    {
      if !hasPath {
        return true;
      }
      match outcome {
        case DirFails => return false;
        case StageFails => return false;
        case RenameFails => return false;
        case Saved =>
          file := Holds(entries);
          return true;
      }
    }

    method FlushDirty(outcome: Save) returns (works: bool)
      modifies this`file, this`dirty
      ensures works <==> !old(dirty) || !hasPath || outcome.Saved?
      ensures dirty <==> old(dirty) && !works
      ensures file == if old(dirty) && hasPath && outcome.Saved? then Holds(entries) else old(file)
    {
      if !dirty {
        return true;
      }
      works := SaveLocked(outcome);
      if works {
        dirty := false;
      }
    }

    /** From an instant on, a reload finds memory's unexpired entries. */
    ghost predicate AgreesFrom(now: int)
      reads this
    {
      forall t :: t >= now ==> Loaded(hasPath, file, true, t) == Fresh(entries, t)
    }

    /** Close flushes once, and only with a path. When it reports success with one, a
        reload at any later time finds memory's unexpired entries, exactly when there was
        something to save or they agreed already. */
    method Close(outcome: Save, ghost now: int) returns (works: bool)
      modifies this`file, this`dirty
      ensures !hasPath ==> works && file == old(file) && dirty == old(dirty)
      ensures hasPath ==> (works <==> !old(dirty) || outcome.Saved?)
      ensures hasPath && works ==> !dirty && (AgreesFrom(now) <==> old(dirty) || old(AgreesFrom(now)))
      ensures hasPath && !works ==> file == old(file) && dirty
    {
      if !hasPath {
        return true;
      }
      works := FlushDirty(outcome);
    }
  }

  // ----- every interleaving -----------------------------------------------------------

  /** Where a Get stands between its locked parts. */
  datatype Pc = Idle | Sampled(ip: string, at: int) | Deleting(ip: string)

  datatype Hit = Hit(decision: Decision, at: int)

  /** The shared state, the running Gets by caller, every value memory has had, the
      hits returned, and how many saves worked. */
  datatype State = State(
    hasPath: bool,
    entries: Entries,
    dirty: bool,
    file: File,
    now: int,
    gets: map<nat, Pc>,
    past: seq<Entries>,
    hits: seq<Hit>,
    saves: nat)

  datatype Action =
    | Tick(dt: nat)
    | Sample(caller: nat, ip: string)
    | Proceed(caller: nat)
    | Set(decision: Decision)
    | Flush(outcome: Save)

  function Start(hasPath: bool, file: File, readWorks: bool, now: int): State {
    var entries := Loaded(hasPath, file, readWorks, now);
    State(hasPath, entries, false, file, now, map[], [entries], [], 0)
  }

  function Remember(s: State, entries: Entries): State {
    s.(entries := entries, dirty := true, past := s.past + [entries])
  }

  function GetStep(s: State, caller: nat): State {
    if caller !in s.gets then s
    else match s.gets[caller]
      case Idle => s
      case Sampled(ip, at) =>
        if ip !in s.entries then s.(gets := s.gets[caller := Idle])
        else if Expired(s.entries[ip], at) then s.(gets := s.gets[caller := Deleting(ip)])
        else s.(gets := s.gets[caller := Idle], hits := s.hits + [Hit(s.entries[ip], at)])
      case Deleting(ip) => Remember(s, s.entries - {ip}).(gets := s.gets[caller := Idle])
  }

  /** One atomic step; the flusher only runs with a path. */
  function Next(s: State, a: Action): State {
    match a
    case Tick(dt) => s.(now := s.now + dt)
    case Sample(caller, ip) =>
      if caller in s.gets && !s.gets[caller].Idle? then s else s.(gets := s.gets[caller := Sampled(ip, s.now)])
    case Proceed(caller) => GetStep(s, caller)
    case Set(d) => Remember(s, s.entries[d.ip := d])
    case Flush(outcome) =>
      if !s.hasPath || !s.dirty || !outcome.Saved? then s
      else s.(file := Holds(s.entries), dirty := false, saves := s.saves + 1)
  }

  function Run(s: State, actions: seq<Action>): State
    decreases |actions|
  {
    if actions == [] then s else Run(Next(s, actions[0]), actions[1..])
  }

  /** Reloading now or later gives memory's unexpired entries. */
  ghost predicate Coherent(s: State) {
    forall t :: t >= s.now ==> Loaded(s.hasPath, s.file, true, t) == Fresh(s.entries, t)
  }

  /** What holds in every reachable state, whatever was loaded. */
  ghost predicate Sound(s: State) {
    && s.past != [] && s.past[|s.past| - 1] == s.entries
    && (s.saves > 0 ==> s.file.Holds? && s.file.entries in s.past)
    && (forall h :: h in s.hits ==> !Expired(h.decision, h.at))
  }

  ghost predicate Inv(s: State) {
    Sound(s) && (!s.dirty ==> Coherent(s))
  }

  /** A new cache agrees with its file exactly when the file could be read, has no
      entries to read, or has none left that are fresh. */
  lemma StartIsCoherentExactly(hasPath: bool, file: File, readWorks: bool, now: int)
    ensures Coherent(Start(hasPath, file, readWorks, now)) <==>
            !hasPath || readWorks || !file.Holds? || Fresh(file.entries, now) == map[]
  {
    var s := Start(hasPath, file, readWorks, now);
    if hasPath && file.Holds? {
      forall t | t >= now
        ensures readWorks || Fresh(file.entries, now) == map[] ==> Loaded(hasPath, file, true, t) == Fresh(s.entries, t)
      {
        FreshLater(file.entries, now, t);
      }
      if !readWorks && Coherent(s) {
        assert Loaded(hasPath, file, true, now) == Fresh(s.entries, now);
        assert Fresh(s.entries, now) == map[];
      }
    } else {
      assert forall t :: Fresh(s.entries, t) == map[];
    }
  }

  /** What is fresh later is what is fresh now and still fresh later. */
  lemma FreshLater(m: Entries, now: int, later: int)
    requires now <= later
    ensures Fresh(Fresh(m, now), later) == Fresh(m, later)
    ensures Fresh(m, now) == map[] ==> Fresh(m, later) == map[]
  {
    if Fresh(m, now) == map[] {
      forall ip | ip in m
        ensures !Loadable(m[ip], later)
      {
        assert ip !in Fresh(m, now);
      }
    }
  }

  lemma SoundKept(s: State, a: Action)
    requires Sound(s)
    ensures Sound(Next(s, a))
  {
  }

  lemma InvKept(s: State, a: Action)
    requires Inv(s)
    ensures Inv(Next(s, a))
  {
    SoundKept(s, a);
  }

  lemma {:induction false} SoundAlways(s: State, actions: seq<Action>)
    requires Sound(s)
    ensures Sound(Run(s, actions)) && Run(s, actions).hasPath == s.hasPath
    decreases |actions|
  {
    if actions == [] {
    } else {
      SoundKept(s, actions[0]);
      SoundAlways(Next(s, actions[0]), actions[1..]);
    }
  }

  lemma {:induction false} InvAlways(s: State, actions: seq<Action>)
    requires Inv(s)
    ensures Inv(Run(s, actions))
    decreases |actions|
  {
    if actions == [] {
    } else {
      InvKept(s, actions[0]);
      InvAlways(Next(s, actions[0]), actions[1..]);
    }
  }

  /** In every reachable state: after the first save the file is a whole past value of
      memory, and no hit was expired at the instant its Get sampled. From a start that
      agrees with its file (StartIsCoherentExactly), with nothing unsaved, a reload now
      or later finds memory's unexpired entries. */
  lemma CacheAndFileAgree(hasPath: bool, file: File, readWorks: bool, now: int, actions: seq<Action>)
    ensures var s := Run(Start(hasPath, file, readWorks, now), actions);
            && (Coherent(Start(hasPath, file, readWorks, now)) && !s.dirty ==> Coherent(s))
            && (s.saves > 0 ==> s.file.Holds? && s.file.entries in s.past)
            && (forall h :: h in s.hits ==> !Expired(h.decision, h.at))
  {
    SoundAlways(Start(hasPath, file, readWorks, now), actions);
    if Coherent(Start(hasPath, file, readWorks, now)) {
      InvAlways(Start(hasPath, file, readWorks, now), actions);
    }
  }

  /** Whatever was loaded, from any file: one save restores the agreement for good. */
  lemma SaveRestoresAgreement(file: File, readWorks: bool, now: int, before: seq<Action>, after: seq<Action>)
    requires Run(Start(true, file, readWorks, now), before).dirty
    ensures var s := Run(Start(true, file, readWorks, now), before);
            var later := Run(Next(s, Flush(Saved)), after);
            !later.dirty ==> Coherent(later)
  {
    SoundAlways(Start(true, file, readWorks, now), before);
    var s := Run(Start(true, file, readWorks, now), before);
    SoundKept(s, Flush(Saved));
    assert Coherent(Next(s, Flush(Saved)));
    InvAlways(Next(s, Flush(Saved)), after);
  }

  // ----- what memory and the file hold -----------------------------------------------------

  lemma {:induction false} RunSnoc(s: State, actions: seq<Action>)
    requires actions != []
    ensures var n := |actions| - 1; Run(s, actions) == Next(Run(s, actions[..n]), actions[n])
    decreases |actions|
  {
    var n := |actions| - 1;
    if n == 0 {
      assert actions[..n] == [] && actions[1..] == [];
    } else {
      RunSnoc(Next(s, actions[0]), actions[1..]);
      assert actions[1..][..n - 1] == actions[..n][1..];
    }
  }

  /** A Get that saw an expired entry deletes what is there now. */
  ghost predicate Deletes(s: State, a: Action, ip: string) {
    a.Proceed? && a.caller in s.gets && s.gets[a.caller] == Deleting(ip)
  }

  /** What the last write of an address before now left there. */
  ghost function LastWrite(s: State, actions: seq<Action>, ip: string): Option<Decision>
    decreases |actions|
  {
    if actions == [] then if ip in s.entries then Some(s.entries[ip]) else None
    else
      var n := |actions| - 1;
      if actions[n].Set? && actions[n].decision.ip == ip then Some(actions[n].decision)
      else if Deletes(Run(s, actions[..n]), actions[n], ip) then None
      else LastWrite(s, actions[..n], ip)
  }

  /** The flushed content, or the file from before. */
  ghost function LastSaved(s: State, actions: seq<Action>): File
    decreases |actions|
  {
    if actions == [] then s.file
    else
      var n := |actions| - 1;
      if s.hasPath && actions[n] == Flush(Saved) && Unsaved(s, actions[..n]) then Holds(Run(s, actions[..n]).entries)
      else LastSaved(s, actions[..n])
  }

  /** Memory was written since the last flush that worked. */
  ghost predicate Unsaved(s: State, actions: seq<Action>)
    decreases |actions|
  {
    if actions == [] then false
    else
      var n := |actions| - 1;
      if actions[n].Set? || (exists ip :: Deletes(Run(s, actions[..n]), actions[n], ip)) then true
      else if s.hasPath && actions[n] == Flush(Saved) then false
      else Unsaved(s, actions[..n])
  }

  /** How many flushes worked. */
  ghost function Saves(s: State, actions: seq<Action>): nat
    decreases |actions|
  {
    if actions == [] then 0
    else
      var n := |actions| - 1;
      Saves(s, actions[..n]) + if s.hasPath && actions[n] == Flush(Saved) && Unsaved(s, actions[..n]) then 1 else 0
  }

  lemma StepWrites(s: State, a: Action, ip: string)
    ensures var s' := Next(s, a);
            && s'.hasPath == s.hasPath
            && (if ip in s'.entries then Some(s'.entries[ip]) else None) ==
               (if a.Set? && a.decision.ip == ip then Some(a.decision)
                else if Deletes(s, a, ip) then None
                else if ip in s.entries then Some(s.entries[ip]) else None)
  {
  }

  lemma StepMarks(s: State, a: Action)
    ensures var s' := Next(s, a);
            && (s'.dirty <==>
                if a.Set? || (exists ip :: Deletes(s, a, ip)) then true
                else if s.hasPath && a == Flush(Saved) then false else s.dirty)
            && s'.file == (if s.hasPath && a == Flush(Saved) && s.dirty then Holds(s.entries) else s.file)
            && s'.saves == s.saves + if s.hasPath && a == Flush(Saved) && s.dirty then 1 else 0
  {
    if a.Proceed? && a.caller in s.gets && s.gets[a.caller].Deleting? {
      assert Deletes(s, a, s.gets[a.caller].ip);
    }
  }

  /** In every run memory holds for each address what was last written, dirty tells
      whether anything was since the last flush that worked, and the file holds what that
      flush found. */
  lemma EverythingIsAsLastWritten(hasPath: bool, file: File, readWorks: bool, now: int, actions: seq<Action>,
                                  ip: string)
    ensures var s := Start(hasPath, file, readWorks, now);
            var s' := Run(s, actions);
            && (if ip in s'.entries then Some(s'.entries[ip]) else None) == LastWrite(s, actions, ip)
            && (s'.dirty <==> Unsaved(s, actions))
            && s'.file == LastSaved(s, actions) && s'.saves == Saves(s, actions)
  {
    AsLastWritten(Start(hasPath, file, readWorks, now), actions, ip);
  }

  lemma {:induction false} AsLastWritten(s: State, actions: seq<Action>, ip: string)
    requires !s.dirty && s.saves == 0
    ensures var s' := Run(s, actions);
            && s'.hasPath == s.hasPath
            && (if ip in s'.entries then Some(s'.entries[ip]) else None) == LastWrite(s, actions, ip)
            && (s'.dirty <==> Unsaved(s, actions))
            && s'.file == LastSaved(s, actions) && s'.saves == Saves(s, actions)
    decreases |actions|
  {
    if actions == [] {
    } else {
      var n := |actions| - 1;
      AsLastWritten(s, actions[..n], ip);
      RunSnoc(s, actions);
      StepWrites(Run(s, actions[..n]), actions[n], ip);
      StepMarks(Run(s, actions[..n]), actions[n]);
    }
  }

  /** A lookup that nothing interrupts: a hit returns the stored entry, a miss nothing, and
      an entry that has expired is deleted by a third step. */
  lemma LookupAlone(s: State, caller: nat, ip: string)
    requires caller in s.gets ==> s.gets[caller].Idle?
    ensures var s1 := Next(Next(s, Sample(caller, ip)), Proceed(caller));
            var s2 := Next(s1, Proceed(caller));
            var expired := ip in s.entries && Expired(s.entries[ip], s.now);
            && s2.gets[caller] == Idle && s2.file == s.file
            && s2.hits == s.hits + (if ip in s.entries && !expired then [Hit(s.entries[ip], s.now)] else [])
            && s2.entries == (if expired then s.entries - {ip} else s.entries)
            && s2.dirty == (expired || s.dirty)
            && (!expired ==> s1 == s2)
  {
  }

  // ----- the late delete -------------------------------------------------------------------

  /** An entry expires; a Get sees it; a new one is stored; the Get deletes. */
  function LateDelete(stale: Decision, renewed: Decision): seq<Action> {
    [Set(stale), Tick(1), Sample(1, stale.ip), Proceed(1), Set(renewed), Proceed(1)]
  }

  lemma RunStep(s: State, actions: seq<Action>)
    requires actions != []
    ensures Run(s, actions) == Run(Next(s, actions[0]), actions[1..])
  {
  }

  /** Up to the decision to delete. */
  lemma GetDecidesToDelete(s: State, stale: Decision)
    requires s.gets == map[] && stale.expiresAt == Some(s.now)
    ensures var s' := Next(Next(Next(Next(s, Set(stale)), Tick(1)), Sample(1, stale.ip)), Proceed(1));
            s'.now == s.now + 1 && 1 in s'.gets && s'.gets[1] == Deleting(stale.ip)
  {
    var s2 := Next(Next(s, Set(stale)), Tick(1));
    var s3 := Next(s2, Sample(1, stale.ip));
    assert s3.gets[1] == Sampled(stale.ip, s.now + 1) && s3.entries[stale.ip] == stale;
  }

  lemma RunSix(s: State, stale: Decision, renewed: Decision)
    ensures Run(s, LateDelete(stale, renewed)) ==
            var decided := Next(Next(Next(Next(s, Set(stale)), Tick(1)), Sample(1, stale.ip)), Proceed(1));
            Next(Next(decided, Set(renewed)), Proceed(1))
  {
    var a := LateDelete(stale, renewed);
    assert a[1..][1..] == a[2..] && a[2..][1..] == a[3..] && a[3..][1..] == a[4..] && a[4..][1..] == a[5..];
    assert a[5..] == [Proceed(1)] && a[5..][1..] == [];
    var s1 := Next(s, a[0]);
    var s2 := Next(s1, a[1]);
    var s3 := Next(s2, a[2]);
    var s4 := Next(s3, a[3]);
    RunStep(s, a);
    RunStep(s1, a[1..]);
    RunStep(s2, a[2..]);
    RunStep(s3, a[3..]);
    RunStep(s4, a[4..]);
    RunStep(Next(s4, a[4]), a[5..]);
  }

  /** From any start: Get decides to delete on what it read, but deletes what is there
      later, so the entry stored in between, which has not expired, is lost. */
  lemma LateDeleteDropsAFreshEntry(hasPath: bool, file: File, readWorks: bool, now: int, stale: Decision,
                                   renewed: Decision)
    requires stale.expiresAt == Some(now) && renewed.ip == stale.ip && !Expired(renewed, now + 1)
    ensures var s := Run(Start(hasPath, file, readWorks, now), LateDelete(stale, renewed));
            && s.now == now + 1 && stale.ip !in s.entries
            && |s.past| >= 2 && stale.ip in s.past[|s.past| - 2] && s.past[|s.past| - 2][stale.ip] == renewed
  {
    var s := Start(hasPath, file, readWorks, now);
    RunSix(s, stale, renewed);
    GetDecidesToDelete(s, stale);
  }
}
