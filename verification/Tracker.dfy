/** The supervisor's session state machine (internal/antivpn/supervisor.go) and the
    RCON guard that reads it (internal/antivpn/rconguard.go). Lines arrive parsed;
    one handleLogLine call is one step at one instant, in milliseconds. */
module Tracker {
  import opened Text
  import opened Dedupe

  const SECOND := 1000

  /** The digits of a client slot as logged; the log patterns never leave it blank. */
  datatype Slot = Slot(digits: string)

  /** A parsed, hence valid, network address in its printed form. */
  datatype Addr = Addr(text: string)

  datatype Body =
    | BadRcon(host: string, ip: Option<Addr>)
    | Chat
    | TeamChange
    | Disconnect(slot: Slot)
    | Connect(slot: Slot, addr: Addr, name: string)
    | UserinfoChanged(slot: Slot, newAddr: Option<Addr>, name: string)
    | Unmatched

  /** A line and whether it marks a game re-initialisation. */
  datatype Line = Blank | Line(burst: bool, body: Body)

  datatype Conn = Conn(addr: Addr, name: string, seenAt: nat)

  type Key = (Slot, Addr)

  /** A background check of an address that the tracker started. */
  datatype Check = Check(slot: Slot, addr: Addr, trigger: Trigger)

  datatype Ignored = Ignored(text: string, parsed: Option<Addr>)

  datatype Config = Config(
    engine: bool,
    dedupeInterval: nat,
    emissionSpacing: int,
    guardEnabled: bool,
    guardIgnored: seq<Ignored>,
    guardAction: string,
    guardBroadcast: bool)

  datatype State = State(conns: map<Slot, Conn>, seen: map<Key, int>, burstUntil: nat)

  const INITIAL := State(map[], map[], 0)

  // ----- one line, as a function on the state ----------------------------------

  /** clamp(8 * spacing, 5 s, 30 s) */
  function BurstWindow(c: Config): (w: nat)
    ensures 8 * c.emissionSpacing <= 5000 ==> w == 5000
    ensures 5000 <= 8 * c.emissionSpacing <= 30000 ==> w == 8 * c.emissionSpacing
    ensures 30000 <= 8 * c.emissionSpacing ==> w == 30000
  {
    var w := c.emissionSpacing * 8;
    if w < 5 * SECOND then 5 * SECOND else if w > 30 * SECOND then 30 * SECOND else w
  }

  function MarkReinitBurst(c: Config, s: State, now: nat): State {
    if now + BurstWindow(c) > s.burstUntil then s.(burstUntil := now + BurstWindow(c)) else s
  }

  function Classify(s: State, slot: Slot, addr: Addr, now: nat): Trigger {
    if now < s.burstUntil && slot in s.conns && s.conns[slot].addr == addr then ReinitConnect else RealConnect
  }

  function Store(s: State, slot: Slot, addr: Addr, name: string, now: nat): State {
    var known := if slot in s.conns then s.conns[slot].name else "";
    s.(conns := s.conns[slot := Conn(addr, if TrimSpace(name) != "" then name else known, now)])
  }

  function UpdateName(s: State, slot: Slot, name: string): State {
    if TrimSpace(name) != "" && slot in s.conns then
      s.(conns := s.conns[slot := s.conns[slot].(name := name)])
    else s
  }

  function Clear(s: State, slot: Slot): State {
    if slot in s.conns then
      s.(conns := s.conns - {slot}, seen := s.seen - {(slot, s.conns[slot].addr)})
    else s
  }

  function Process(c: Config, s: State, slot: Slot, addr: Addr, trigger: Trigger, now: nat): (State, Option<Check>) {
    if !c.engine then (s, None)
    else
      var (seen, accepted) := MarkStep(s.seen, (slot, addr), now, c.dedupeInterval, EVENT_HORIZON);
      (s.(seen := seen), if accepted then Some(Check(slot, addr, trigger)) else None)
  }

  function MarkLine(c: Config, s: State, line: Line, now: nat): State {
    if line.Line? && line.burst then MarkReinitBurst(c, s, now) else s
  }

  function Track(c: Config, s: State, line: Line, now: nat): (State, Option<Check>) {
    if line.Blank? then (s, None) else TrackBody(c, MarkLine(c, s, line, now), line.body, now)
  }

  function TrackBody(c: Config, s: State, body: Body, now: nat): (State, Option<Check>) {
    match body
    case BadRcon(_, _) => (s, None)
    case Chat => (s, None)
    case TeamChange => (s, None)
    case Disconnect(slot) => (Clear(s, slot), None)
    case Connect(slot, addr, name) =>
      Process(c, Store(s, slot, addr, name, now), slot, addr, Classify(s, slot, addr, now), now)
    case UserinfoChanged(slot, newAddr, name) => TrackUserinfo(c, s, slot, newAddr, name, now)
    case Unmatched => (s, None)
  }

  function TrackUserinfo(c: Config, s: State, slot: Slot, newAddr: Option<Addr>, name: string, now: nat)
    : (State, Option<Check>)
  {
    match newAddr
    case None => (UpdateName(s, slot, name), None)
    case Some(addr) =>
      var stored := Store(s, slot, addr, name, now);
      if slot in s.conns && s.conns[slot].addr == addr then (stored, None)
      else Process(c, stored, slot, addr, Userinfo, now)
  }

  // ----- the guard ---------------------------------------------------------------

  /** The most recently seen slot tracked at the address; ties go to any of them. */
  ghost predicate IsLatestAt(conns: map<Slot, Conn>, ip: Addr, slot: Slot) {
    && slot in conns && conns[slot].addr == ip
    && forall other :: other in conns && conns[other].addr == ip ==> conns[other].seenAt <= conns[slot].seenAt
  }

  ghost predicate IsIgnored(ignored: seq<Ignored>, host: string, ip: Option<Addr>) {
    exists e :: e in ignored && e.text != ""
                && ((ToLower(TrimSpace(host)) != "" && e.text == ToLower(TrimSpace(host)))
                    || (ip.Some? && e.parsed == ip))
  }

  function GuardAction(c: Config): string {
    var action := ToLower(TrimSpace(c.guardAction));
    if action == "" then "kick" else action
  }

  /** Commands written for one bad-RCON line, by slot. */
  datatype Command = ClientKick(slot: Slot) | SayKicked(slot: Slot)

  ghost predicate GuardActs(c: Config, conns: map<Slot, Conn>, host: string, ip: Option<Addr>) {
    && c.guardEnabled && !IsIgnored(c.guardIgnored, host, ip)
    && ip.Some? && (exists slot :: slot in conns && conns[slot].addr == ip.value)
    && GuardAction(c) == "kick"
  }

  /** What the guard may write: nothing, or one kick of a latest slot at the source
      address, followed by the announcement when the write worked and it is on. */
  ghost predicate GuardWrites(c: Config, conns: map<Slot, Conn>, host: string, ip: Option<Addr>, works: bool,
                              written: seq<Command>) {
    if GuardActs(c, conns, host, ip) then
      exists slot :: IsLatestAt(conns, ip.value, slot)
                     && written == [ClientKick(slot)] + if works && c.guardBroadcast then [SayKicked(slot)] else []
    else written == []
  }

  // ----- the program's object ----------------------------------------------------

  class Supervisor {
    const cfg: Config
    var connectionState: map<Slot, Conn>
    const events: DedupeTable<Key>
    var reinitBurstUntil: nat
    /** Checks started, and guard commands written, in order. */
    var checks: seq<Check>
    var commands: seq<Command>

    ghost predicate Valid()
      reads this
    {
      events.horizon == 300000
    }

    ghost function Model(): State
      reads this, events
    {
      State(connectionState, events.seen, reinitBurstUntil)
    }

    constructor (cfg: Config)
      ensures Valid() && fresh(events)
      ensures this.cfg == cfg && Model() == INITIAL && checks == [] && commands == []
    {
      this.cfg := cfg;
      connectionState := map[];
      events := new DedupeTable<Key>(EVENT_HORIZON);
      reinitBurstUntil := 0;
      checks, commands := [], [];
    }

    method MarkBurst(now: nat)
      modifies this`reinitBurstUntil
      ensures Model() == MarkReinitBurst(cfg, old(Model()), now)
    {
      var window := cfg.emissionSpacing * 8;
      if window < 5 * SECOND {
        window := 5 * SECOND;
      }
      if window > 30 * SECOND {
        window := 30 * SECOND;
      }
      if now + window > reinitBurstUntil {
        reinitBurstUntil := now + window;
      }
    }

    method ClassifyConnect(slot: Slot, addr: Addr, now: nat) returns (kind: Trigger)
      ensures kind == Classify(Model(), slot, addr, now)
    {
      if now >= reinitBurstUntil {
        return RealConnect;
      }
      if slot !in connectionState {
        return RealConnect;
      }
      if connectionState[slot].addr != addr {
        return RealConnect;
      }
      return ReinitConnect;
    }

    method StoreConnectionState(slot: Slot, addr: Addr, playerName: string, now: nat)
      modifies this`connectionState
      ensures Model() == Store(old(Model()), slot, addr, playerName, now)
    {
      var state := if slot in connectionState then connectionState[slot] else Conn(addr, "", now);
      state := state.(addr := addr, seenAt := now);
      if TrimSpace(playerName) != "" {
        state := state.(name := playerName);
      }
      connectionState := connectionState[slot := state];
    }

    method ClearConnectionState(slot: Slot)
      modifies this`connectionState, events
      ensures Model() == Clear(old(Model()), slot)
    {
      if slot in connectionState {
        var state := connectionState[slot];
        connectionState := connectionState - {slot};
        events.ForgetKey((slot, state.addr));
      }
    }

    method UpdateConnectionStateName(slot: Slot, playerName: string)
      modifies this`connectionState
      ensures Model() == UpdateName(old(Model()), slot, playerName)
    {
      if TrimSpace(playerName) == "" {
        return;
      }
      if slot in connectionState {
        connectionState := connectionState[slot := connectionState[slot].(name := playerName)];
      }
    }

    method ProcessConnectionEvent(slot: Slot, addr: Addr, trigger: Trigger, now: nat)
      requires Valid()
      modifies this`checks, events
      ensures Model() == Process(cfg, old(Model()), slot, addr, trigger, now).0
      ensures checks == old(checks) + Listed(Process(cfg, old(Model()), slot, addr, trigger, now).1)
    {
      if !cfg.engine {
        return;
      }
      var accepted := events.MarkKey((slot, addr), now, cfg.dedupeInterval);
      if !accepted {
        return;
      }
      checks := checks + [Check(slot, addr, trigger)];
    }

    /** The loop over the tracked slots. */
    method LookupSlotByIP(ip: Option<Addr>) returns (found: Option<Slot>)
      ensures found.Some? ==> ip.Some? && IsLatestAt(connectionState, ip.value, found.value)
      ensures found.None? ==>
                ip.None? || forall slot :: slot in connectionState ==> connectionState[slot].addr != ip.value
    {
      if ip.None? {
        return None;
      }
      found := None;
      var todo := connectionState.Keys;
      while todo != {}
        invariant todo <= connectionState.Keys
        invariant found.Some? ==> found.value in connectionState && connectionState[found.value].addr == ip.value
        invariant forall slot :: slot in connectionState && slot !in todo && connectionState[slot].addr == ip.value ==>
                    found.Some? && connectionState[slot].seenAt <= connectionState[found.value].seenAt
        decreases todo
      {
        var slot :| slot in todo;
        todo := todo - {slot};
        var state := connectionState[slot];
        if state.addr == ip.value {
          if found.None? || state.seenAt > connectionState[found.value].seenAt {
            found := Some(slot);
          }
        }
      }
    }

    method HandleBadRcon(host: string, ip: Option<Addr>, writeWorks: bool) returns (written: seq<Command>)
      modifies this`commands
      ensures commands == old(commands) + written
      ensures GuardWrites(cfg, connectionState, host, ip, writeWorks, written)
    {
      written := [];
      if !cfg.guardEnabled {
        return;
      }
      var ignored := GuardIsIgnoredHost(cfg.guardIgnored, host, ip);
      if ignored {
        return;
      }
      var found := LookupSlotByIP(ip);
      if found.None? {
        return;
      }
      var slot := found.value;
      if GuardAction(cfg) == "kick" {
        written := [ClientKick(slot)];
        if writeWorks && cfg.guardBroadcast {
          written := [ClientKick(slot), SayKicked(slot)];
        }
        commands := commands + written;
        assert GuardActs(cfg, connectionState, host, ip);
        assert IsLatestAt(connectionState, ip.value, slot);
      }
    }

    /** One line. A bad-RCON line writes what the guard decides; no other line writes
        a guard command. */
    method HandleLogLine(line: Line, now: nat, writeWorks: bool) returns (written: seq<Command>)
      requires Valid()
      modifies this, events
      ensures Valid()
      ensures Model() == Track(cfg, old(Model()), line, now).0
      ensures checks == old(checks) + Listed(Track(cfg, old(Model()), line, now).1)
      ensures commands == old(commands) + written
      ensures if line.Line? && line.body.BadRcon?
              then GuardWrites(cfg, old(connectionState), line.body.host, line.body.ip, writeWorks, written)
              else written == []
    {
      written := [];
      if line.Blank? {
        return;
      }
      if line.burst {
        MarkBurst(now);
      }
      match line.body {
        case BadRcon(host, ip) => written := HandleBadRcon(host, ip, writeWorks);
        case Chat =>
        case TeamChange =>
        case Disconnect(slot) => ClearConnectionState(slot);
        case Connect(slot, addr, name) =>
          var kind := ClassifyConnect(slot, addr, now);
          StoreConnectionState(slot, addr, name, now);
          ProcessConnectionEvent(slot, addr, kind, now);
        case UserinfoChanged(slot, newAddr, name) => HandleUserinfo(slot, newAddr, name, now);
        case Unmatched =>
      }
    }

    method HandleUserinfo(slot: Slot, newAddr: Option<Addr>, name: string, now: nat)
      requires Valid()
      modifies this`connectionState, this`checks, events
      ensures Model() == TrackUserinfo(cfg, old(Model()), slot, newAddr, name, now).0
      ensures checks == old(checks) + Listed(TrackUserinfo(cfg, old(Model()), slot, newAddr, name, now).1)
    {
      if newAddr.None? {
        UpdateConnectionStateName(slot, name);
        return;
      }
      var addr := newAddr.value;
      var same := slot in connectionState && connectionState[slot].addr == addr;
      StoreConnectionState(slot, addr, name, now);
      if same {
        return;
      }
      ProcessConnectionEvent(slot, addr, Userinfo, now);
    }
  }

  function Listed(c: Option<Check>): seq<Check> {
    match c
    case None => []
    case Some(check) => [check]
  }

  method GuardIsIgnoredHost(ignored: seq<Ignored>, host: string, ip: Option<Addr>) returns (yes: bool)
    ensures yes <==> IsIgnored(ignored, host, ip)
  {
    if |ignored| == 0 {
      return false;
    }
    var hostLower := ToLower(TrimSpace(host));
    for i := 0 to |ignored|
      invariant forall k :: 0 <= k < i ==>
                  || ignored[k].text == ""
                  || !((hostLower != "" && ignored[k].text == hostLower) || (ip.Some? && ignored[k].parsed == ip))
    {
      var e := ignored[i];
      if e.text == "" {
        continue;
      }
      if hostLower != "" && e.text == hostLower {
        return true;
      }
      if ip.Some? && e.parsed == ip {
        return true;
      }
    }
    return false;
  }
}
