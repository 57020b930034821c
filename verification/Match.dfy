/** The match announcer of bundled-addons/defaults/match-announcer.py: a vote arms
    it, an init_game of a supported game type activates it, the start line is
    deferred, and one of three triggers ends the match. Instants are seconds. */
module Match {
  import opened Text

  const MAP_RESTART_ARM_SECONDS := 30.0
  const MATCH_START_DELAY_SECONDS := 2.0

  datatype Config = Config(gametypes: set<nat>, requireVote: bool)

  /** The digits of a score line; None when Python's int() refuses them. */
  datatype Scores = Scores(red: Option<nat>, blue: Option<nat>)

  /** Which of the patterns a raw line matches; the handler tries them in order. */
  datatype Raw = Raw(empty: bool, votePassed: bool, exitLine: bool, score: Option<Scores>, scoreboard: bool)

  /** Events as delivered; Malformed is anything but a JSON object, and Tick is the
      wall-clock pump of the main loop. */
  datatype Event =
    | RawLine(raw: Raw)
    | InitGame(gametype: Option<nat>)
    | ShutdownGame
    | TeamChange
    | OtherType
    | Malformed
    | Tick

  /** One turn: the clock as the handler reads it, and as the pump after it does. */
  datatype Input = Input(event: Event, now: real, pump: real)

  datatype Outcome = RedWins | BlueWins | Draw

  /** The end line is rendered from one of three templates and the scores it was given. */
  datatype Line = StartLine | EndLine(outcome: Outcome, red: Option<nat>, blue: Option<nat>)

  datatype State = State(
    armed: bool,
    armedAt: Option<real>,
    matchStarted: bool,
    matchEnding: bool,
    summarySent: bool,
    startSent: bool,
    pending: bool,
    pendingAt: Option<real>,
    red: Option<nat>,
    blue: Option<nat>,
    gametype: Option<nat>)

  // ----- the handlers as functions on the state ------------------------------

  function ResetMatch(m: State): State {
    State(m.armed, m.armedAt, false, false, false, false, false, None, None, None, None)
  }

  const INITIAL := State(false, None, false, false, false, false, false, None, None, None, None)

  function IsArmedNow(m: State, now: real): bool {
    m.armed && (m.armedAt.None? || now - m.armedAt.value <= MAP_RESTART_ARM_SECONDS)
  }

  function Winner(red: Option<nat>, blue: Option<nat>): Outcome {
    match (red, blue)
    case (Some(r), Some(b)) => if r > b then RedWins else if b > r then BlueWins else Draw
    case _ => Draw
  }

  function SendSummaryAndReset(m: State): (State, seq<Line>) {
    if m.summarySent then (m, []) else (ResetMatch(m), [EndLine(Winner(m.red, m.blue), m.red, m.blue)])
  }

  /** A refused red score leaves both scores alone, a refused blue one only blue. */
  function TakeScores(m: State, s: Scores): State {
    match s.red
    case None => m
    case Some(_) => if s.blue.Some? then m.(red := s.red, blue := s.blue) else m.(red := s.red)
  }

  function OnRawLine(m: State, raw: Raw, now: real): (State, seq<Line>) {
    if raw.empty then (m, [])
    else if raw.votePassed then (m.(armed := true, armedAt := Some(now)), [])
    else if !m.matchStarted then (m, [])
    else if raw.exitLine then (m.(matchEnding := true), [])
    else if raw.score.Some? then SendSummaryAndReset(TakeScores(m, raw.score.value))
    else if !m.summarySent && raw.scoreboard then SendSummaryAndReset(m)
    else (m, [])
  }

  predicate Activates(c: Config, m: State, e: Event, now: real) {
    && e.InitGame? && e.gametype.Some? && e.gametype.value in c.gametypes
    && (c.requireVote ==> IsArmedNow(m, now))
  }

  function OnInitGame(c: Config, m: State, e: Event, now: real): State
    requires e.InitGame?
  {
    if !Activates(c, m, e, now) then m.(armed := false, armedAt := None)
    else ResetMatch(m).(
         armed := false, armedAt := None, matchStarted := true, gametype := e.gametype,
         pending := true, pendingAt := Some(now + MATCH_START_DELAY_SECONDS))
  }

  function OnShutdownGame(m: State): (State, seq<Line>) {
    if !m.matchStarted then (m, [])
    else if m.summarySent then (ResetMatch(m), [])
    else if m.matchEnding then SendSummaryAndReset(m)
    else (m, [])
  }

  function Handle(c: Config, m: State, e: Event, now: real): (State, seq<Line>) {
    match e
    case RawLine(raw) => OnRawLine(m, raw, now)
    case InitGame(_) => (OnInitGame(c, m, e, now), [])
    case ShutdownGame => OnShutdownGame(m)
    case TeamChange => (m, [])
    case OtherType => (m, [])
    case Malformed => (m, [])
    case Tick => (m, [])
  }

  function MaybeSendPendingMatchStart(m: State, now: real): (State, seq<Line>) {
    if !m.pending then (m, [])
    else if m.pendingAt.Some? && now < m.pendingAt.value then (m, [])
    else
      var cleared := m.(pending := false, pendingAt := None);
      if m.startSent then (cleared, []) else (cleared.(startSent := true), [StartLine])
  }

  /** One turn: the handler, then the pump, which a malformed event does not reach. */
  function Turn(c: Config, m: State, i: Input): (State, seq<Line>, seq<Line>) {
    var (m1, handled) := Handle(c, m, i.event, i.now);
    if i.event.Malformed? then (m1, handled, [])
    else
      var (m2, pumped) := MaybeSendPendingMatchStart(m1, i.pump);
      (m2, handled, pumped)
  }

  // ----- the program's object --------------------------------------------------

  class MatchAnnouncer {
    const config: Config
    var armed: bool
    var armedAt: Option<real>
    var matchStarted: bool
    var matchEnding: bool
    var summarySent: bool
    var matchStartSent: bool
    var pendingMatchStart: bool
    var pendingMatchStartAt: Option<real>
    var finalRedScore: Option<nat>
    var finalBlueScore: Option<nat>
    var currentGametype: Option<nat>
    /** Every call of _emit, in order. */
    var emitted: seq<Line>

    ghost function Model(): State
      reads this
    {
      State(armed, armedAt, matchStarted, matchEnding, summarySent, matchStartSent, pendingMatchStart,
            pendingMatchStartAt, finalRedScore, finalBlueScore, currentGametype)
    }

    constructor (config: Config)
      ensures Model() == INITIAL && emitted == [] && this.config == config
    {
      this.config := config;
      armed, armedAt := false, None;
      matchStarted, matchEnding, summarySent, matchStartSent := false, false, false, false;
      pendingMatchStart, pendingMatchStartAt := false, None;
      finalRedScore, finalBlueScore, currentGametype := None, None, None;
      emitted := [];
    }

    method ResetMatchFields()
      modifies this
      ensures Model() == ResetMatch(old(Model())) && emitted == old(emitted)
    {
      matchStarted, matchEnding, summarySent, matchStartSent := false, false, false, false;
      pendingMatchStart, pendingMatchStartAt := false, None;
      finalRedScore, finalBlueScore, currentGametype := None, None, None;
    }

    method SendSummary()
      modifies this
      ensures Model() == SendSummaryAndReset(old(Model())).0
      ensures emitted == old(emitted) + SendSummaryAndReset(old(Model())).1
    {
      if summarySent {
        return;
      }
      summarySent := true;
      emitted := emitted + [EndLine(Winner(finalRedScore, finalBlueScore), finalRedScore, finalBlueScore)];
      ResetMatchFields();
    }

    method RawLineEvent(raw: Raw, now: real)
      modifies this
      ensures Model() == OnRawLine(old(Model()), raw, now).0
      ensures emitted == old(emitted) + OnRawLine(old(Model()), raw, now).1
    {
      if raw.empty {
        return;
      }
      if raw.votePassed {
        armed, armedAt := true, Some(now);
        return;
      }
      if !matchStarted {
        return;
      }
      if raw.exitLine {
        matchEnding := true;
        return;
      }
      if raw.score.Some? {
        var scores := raw.score.value;
        if scores.red.Some? {
          finalRedScore := scores.red;
          if scores.blue.Some? {
            finalBlueScore := scores.blue;
          }
        }
        if !summarySent {
          SendSummary();
        }
        return;
      }
      if !summarySent && raw.scoreboard {
        SendSummary();
      }
    }

    method InitGameEvent(gametype: Option<nat>, now: real)
      modifies this
      ensures Model() == OnInitGame(config, old(Model()), InitGame(gametype), now) && emitted == old(emitted)
    {
      if gametype.None? || gametype.value !in config.gametypes {
        armed, armedAt := false, None;
        return;
      }
      if config.requireVote && !(armed && (armedAt.None? || now - armedAt.value <= MAP_RESTART_ARM_SECONDS)) {
        armed, armedAt := false, None;
        return;
      }
      ResetMatchFields();
      currentGametype := gametype;
      matchStarted := true;
      armed, armedAt := false, None;
      pendingMatchStart := true;
      pendingMatchStartAt := Some(now + MATCH_START_DELAY_SECONDS);
    }

    method ShutdownGameEvent()
      modifies this
      ensures Model() == OnShutdownGame(old(Model())).0
      ensures emitted == old(emitted) + OnShutdownGame(old(Model())).1
    {
      if !matchStarted {
        return;
      }
      if summarySent {
        ResetMatchFields();
        return;
      }
      if matchEnding {
        SendSummary();
      }
    }

    method PumpPendingStart(now: real)
      modifies this
      ensures Model() == MaybeSendPendingMatchStart(old(Model()), now).0
      ensures emitted == old(emitted) + MaybeSendPendingMatchStart(old(Model()), now).1
    {
      if !pendingMatchStart {
        return;
      }
      if pendingMatchStartAt.Some? && now < pendingMatchStartAt.value {
        return;
      }
      pendingMatchStart, pendingMatchStartAt := false, None;
      if matchStartSent {
        return;
      }
      matchStartSent := true;
      emitted := emitted + [StartLine];
    }

    /** handle_event and tick. */
    method HandleEvent(i: Input)
      modifies this
      ensures Model() == Turn(config, old(Model()), i).0
      ensures emitted == old(emitted) + Turn(config, old(Model()), i).1 + Turn(config, old(Model()), i).2
    {
      match i.event {
        case Malformed => return;
        case RawLine(raw) => RawLineEvent(raw, i.now);
        case InitGame(gametype) => InitGameEvent(gametype, i.now);
        case ShutdownGame => ShutdownGameEvent();
        case TeamChange =>
        case OtherType =>
        case Tick =>
      }
      PumpPendingStart(i.pump);
    }
  }

  // ----- whole runs ------------------------------------------------------------

  /** The visible trace of a run: its activations and its emitted lines. */
  datatype Out = Activated(at: real) | Emitted(line: Line, at: real)

  function Stamp(lines: seq<Line>, at: real): (r: seq<Out>)
    ensures |r| == |lines|
  {
    seq(|lines|, k requires 0 <= k < |lines| => Emitted(lines[k], at))
  }

  function Outs(c: Config, m: State, i: Input): seq<Out> {
    var (_, handled, pumped) := Turn(c, m, i);
    (if Activates(c, m, i.event, i.now) then [Activated(i.now)] else [])
    + Stamp(handled, i.now) + Stamp(pumped, i.pump)
  }

  function After(c: Config, inputs: seq<Input>): State {
    if inputs == [] then INITIAL
    else Turn(c, After(c, inputs[..|inputs| - 1]), inputs[|inputs| - 1]).0
  }

  function Trace(c: Config, inputs: seq<Input>): seq<Out> {
    if inputs == [] then []
    else
      var front := inputs[..|inputs| - 1];
      Trace(c, front) + Outs(c, After(c, front), inputs[|inputs| - 1])
  }

  // ----- between events ----------------------------------------------------------

  ghost predicate Settled(m: State) {
    && !m.summarySent && m.red.None? && m.blue.None?
    && (m.armed <==> m.armedAt.Some?)
    && (m.pending <==> m.pendingAt.Some?)
    && (!m.matchStarted ==> !m.pending && !m.matchEnding && !m.startSent)
    && (m.matchStarted ==> (m.startSent <==> !m.pending))
    && (m.matchStarted <==> m.gametype.Some?)
  }

  lemma HandleSettles(c: Config, m: State, e: Event, now: real)
    requires Settled(m)
    ensures Settled(Handle(c, m, e, now).0)
  {
  }

  lemma PumpSettles(m: State, now: real)
    requires Settled(m)
    ensures Settled(MaybeSendPendingMatchStart(m, now).0)
  {
  }

  lemma TurnSettles(c: Config, m: State, i: Input)
    requires Settled(m)
    ensures Settled(Turn(c, m, i).0)
  {
    HandleSettles(c, m, i.event, i.now);
    PumpSettles(Handle(c, m, i.event, i.now).0, i.pump);
  }

  /** Between events no summary is half sent and no score is remembered, so the
      summary_sent branch of the shutdown handler is never taken. */
  lemma {:induction false} AlwaysSettled(c: Config, inputs: seq<Input>)
    ensures Settled(After(c, inputs))
  {
    if inputs == [] {
    } else {
      var front := inputs[..|inputs| - 1];
      AlwaysSettled(c, front);
      TurnSettles(c, After(c, front), inputs[|inputs| - 1]);
    }
  }

  /** What an end line for two readable numbers says. */
  ghost predicate TellsScore(line: Line, red: nat, blue: nat) {
    && line.EndLine? && line.red == Some(red) && line.blue == Some(blue)
    && (line.outcome == RedWins <==> red > blue)
    && (line.outcome == BlueWins <==> blue > red)
    && (line.outcome == Draw <==> red == blue)
  }

  /** An end line for a score line tells that line's own numbers and the winner by them;
      a refused number makes it a draw. Every other end line, from the scoreboard or the
      shutdown, tells a draw without numbers. The pump sends start lines only. */
  lemma EndLinesTellTheScore(c: Config, inputs: seq<Input>, i: Input)
    ensures var (_, handled, pumped) := Turn(c, After(c, inputs), i);
            && |handled| <= 1 && (pumped == [] || pumped == [StartLine])
            && (handled != [] && ScoreOf(i).Some? && ScoreOf(i).value.red.Some? && ScoreOf(i).value.blue.Some? ==>
                  TellsScore(handled[0], ScoreOf(i).value.red.value, ScoreOf(i).value.blue.value))
            && (handled != [] && ScoreOf(i).Some? && ScoreOf(i).value.red.Some? && ScoreOf(i).value.blue.None? ==>
                  handled == [EndLine(Draw, ScoreOf(i).value.red, None)])
            && (handled != [] && (ScoreOf(i).None? || ScoreOf(i).value.red.None?) ==>
                  handled == [EndLine(Draw, None, None)])
  {
    AlwaysSettled(c, inputs);
    var m := After(c, inputs);
    if i.event.RawLine? && m.matchStarted && i.event.raw.score.Some? {
      assert TakeScores(m, i.event.raw.score.value).summarySent == false;
    }
  }

  function ScoreOf(i: Input): Option<Scores> {
    if i.event.RawLine? then i.event.raw.score else None
  }

  // ----- when a match ends -----------------------------------------------------------

  predicate EndsAt(c: Config, inputs: seq<Input>, i: nat)
    requires i < |inputs|
  {
    Turn(c, After(c, inputs[..i]), inputs[i]).1 != []
  }

  /** A line that no earlier pattern takes. */
  predicate IsExit(i: Input) {
    i.event.RawLine? && !i.event.raw.empty && !i.event.raw.votePassed && i.event.raw.exitLine
  }

  predicate IsScore(i: Input) {
    && i.event.RawLine? && !i.event.raw.empty && !i.event.raw.votePassed && !i.event.raw.exitLine
    && (i.event.raw.score.Some? || i.event.raw.scoreboard)
  }

  /** The match activated by input k goes on: no activation and no end line since. */
  ghost predicate OngoingSince(c: Config, inputs: seq<Input>, k: nat)
    requires k < |inputs|
  {
    && ActivatesAt(c, inputs, k)
    && forall l: nat :: k < l < |inputs| ==> !ActivatesAt(c, inputs, l) && !EndsAt(c, inputs, l)
  }

  ghost predicate Ongoing(c: Config, inputs: seq<Input>) {
    exists k: nat :: k < |inputs| && OngoingSince(c, inputs, k)
  }

  ghost predicate ExitSeen(c: Config, inputs: seq<Input>) {
    exists k: nat, x: nat :: k < x < |inputs| && OngoingSince(c, inputs, k) && IsExit(inputs[x])
  }

  lemma SameInPrefix(c: Config, inputs: seq<Input>, n: nat, l: nat)
    requires l < n <= |inputs|
    ensures ActivatesAt(c, inputs[..n], l) == ActivatesAt(c, inputs, l)
    ensures EndsAt(c, inputs[..n], l) == EndsAt(c, inputs, l)
  {
    assert inputs[..n][..l] == inputs[..l];
  }

  lemma OngoingStep(c: Config, inputs: seq<Input>, k: nat)
    requires k < |inputs| - 1
    ensures var n := |inputs| - 1;
            OngoingSince(c, inputs, k) <==>
            OngoingSince(c, inputs[..n], k) && !ActivatesAt(c, inputs, n) && !EndsAt(c, inputs, n)
  {
    var n := |inputs| - 1;
    forall l: nat | l < n
      ensures ActivatesAt(c, inputs[..n], l) == ActivatesAt(c, inputs, l)
      ensures EndsAt(c, inputs[..n], l) == EndsAt(c, inputs, l)
    {
      SameInPrefix(c, inputs, n, l);
    }
  }

  /** How one turn changes whether a match is on, and whether it is about to end. */
  lemma TurnGoesOn(c: Config, m: State, i: Input)
    requires Settled(m)
    ensures var (m', handled, _) := Turn(c, m, i);
            var active := Activates(c, m, i.event, i.now);
            && (active ==> m'.matchStarted && !m'.matchEnding && handled == [])
            && (!active && handled != [] ==> !m'.matchStarted && !m'.matchEnding)
            && (!active && handled == [] ==>
                  && m'.matchStarted == m.matchStarted
                  && m'.matchEnding == (m.matchEnding || (m.matchStarted && IsExit(i))))
            && (handled != [] <==>
                  m.matchStarted && (IsScore(i) || (i.event.ShutdownGame? && m.matchEnding)))
  {
  }

  /** One more input, for what is on. */
  lemma OngoingAfter(c: Config, inputs: seq<Input>)
    requires inputs != []
    ensures var n := |inputs| - 1;
            && (ActivatesAt(c, inputs, n) ==> Ongoing(c, inputs) && !ExitSeen(c, inputs))
            && (!ActivatesAt(c, inputs, n) && EndsAt(c, inputs, n) ==> !Ongoing(c, inputs) && !ExitSeen(c, inputs))
            && (!ActivatesAt(c, inputs, n) && !EndsAt(c, inputs, n) ==>
                  && (Ongoing(c, inputs) <==> Ongoing(c, inputs[..n]))
                  && (ExitSeen(c, inputs) <==>
                      ExitSeen(c, inputs[..n]) || (Ongoing(c, inputs[..n]) && IsExit(inputs[n]))))
  {
    var n := |inputs| - 1;
    forall k: nat | k < n
      ensures OngoingSince(c, inputs, k) <==>
              OngoingSince(c, inputs[..n], k) && !ActivatesAt(c, inputs, n) && !EndsAt(c, inputs, n)
    {
      OngoingStep(c, inputs, k);
    }
    assert forall x: nat :: x < n ==> inputs[..n][x] == inputs[x];
    assert ActivatesAt(c, inputs, n) ==> OngoingSince(c, inputs, n);
  }

  /** The announcer has a match on exactly when some input activated it and nothing has
      ended it since, and expects its end exactly when an exit line came meanwhile. */
  lemma {:induction false} StartedMeansOngoing(c: Config, inputs: seq<Input>)
    ensures After(c, inputs).matchStarted <==> Ongoing(c, inputs)
    ensures After(c, inputs).matchEnding <==> ExitSeen(c, inputs)
  {
    if inputs == [] {
    } else {
      var n := |inputs| - 1;
      StartedMeansOngoing(c, inputs[..n]);
      AlwaysSettled(c, inputs[..n]);
      TurnGoesOn(c, After(c, inputs[..n]), inputs[n]);
      OngoingAfter(c, inputs);
    }
  }

  /** An end line is sent exactly when a match is on and a score line or the final
      scoreboard comes, or a shutdown after an exit line of that match. */
  lemma EndsExactly(c: Config, inputs: seq<Input>, i: Input)
    ensures Turn(c, After(c, inputs), i).1 != [] <==>
            && Ongoing(c, inputs)
            && (IsScore(i) || (i.event.ShutdownGame? && ExitSeen(c, inputs)))
  {
    StartedMeansOngoing(c, inputs);
    AlwaysSettled(c, inputs);
    TurnGoesOn(c, After(c, inputs), i);
  }

  // ----- the output grammar --------------------------------------------------------

  /** What may come next: nothing before an activation; then a start line not
      sooner than the delay; then an end line; then nothing until the next one. */
  datatype Phase = Idle | Open(at: real) | Running | Over | Broken

  function Advance(p: Phase, o: Out): Phase {
    match o
    case Activated(at) => if p.Broken? then Broken else Open(at)
    case Emitted(StartLine, at) =>
      if p.Open? && at >= p.at + 2.0 then Running else Broken
    case Emitted(EndLine(_, _, _), _) => if p.Open? || p.Running? then Over else Broken
  }

  function PhaseOf(trace: seq<Out>): Phase {
    if trace == [] then Idle else Advance(PhaseOf(trace[..|trace| - 1]), trace[|trace| - 1])
  }

  ghost predicate Matches(p: Phase, m: State) {
    && Settled(m)
    && !p.Broken?
    && (m.matchStarted ==> (if m.pending then p.Open? && m.pendingAt == Some(p.at + 2.0)
                            else p.Running?))
    && (!m.matchStarted ==> p.Idle? || p.Over?)
  }

  lemma {:induction false} PhaseOfAppend(a: seq<Out>, b: seq<Out>)
    ensures b == [] ==> PhaseOf(a + b) == PhaseOf(a)
    ensures |b| == 1 ==> PhaseOf(a + b) == Advance(PhaseOf(a), b[0])
    ensures |b| == 2 ==> PhaseOf(a + b) == Advance(Advance(PhaseOf(a), b[0]), b[1])
  {
    if b == [] {
      assert a + b == a;
    } else if |b| == 1 {
      assert (a + b)[..|a|] == a;
    } else if |b| == 2 {
      assert (a + b)[..|a| + 1] == a + b[..1];
      assert (a + b[..1])[..|a|] == a;
    }
  }

  /** The handler's part of a turn, seen by the grammar. */
  lemma HandleMatches(c: Config, m: State, p: Phase, i: Input)
    requires Matches(p, m)
    ensures var (m1, handled) := Handle(c, m, i.event, i.now);
            && |handled| <= 1
            && (Activates(c, m, i.event, i.now) ==> handled == [] && Matches(Open(i.now), m1))
            && (!Activates(c, m, i.event, i.now) && handled == [] ==> Matches(p, m1))
            && (handled != [] ==> Matches(Advance(p, Emitted(handled[0], i.now)), m1))
  {
  }

  lemma PumpMatches(m: State, p: Phase, now: real)
    requires Matches(p, m)
    ensures var (m2, pumped) := MaybeSendPendingMatchStart(m, now);
            && |pumped| <= 1
            && (pumped == [] ==> Matches(p, m2))
            && (pumped != [] ==> Matches(Advance(p, Emitted(pumped[0], now)), m2))
  {
  }

  function Handled(c: Config, m: State, i: Input): seq<Out> {
    (if Activates(c, m, i.event, i.now) then [Activated(i.now)] else [])
    + Stamp(Handle(c, m, i.event, i.now).1, i.now)
  }

  lemma HandledPartMatches(c: Config, m: State, trace: seq<Out>, i: Input)
    requires Matches(PhaseOf(trace), m)
    ensures Matches(PhaseOf(trace + Handled(c, m, i)), Handle(c, m, i.event, i.now).0)
  {
    HandleMatches(c, m, PhaseOf(trace), i);
    PhaseOfAppend(trace, Handled(c, m, i));
  }

  lemma PumpedPartMatches(m: State, trace: seq<Out>, now: real)
    requires Matches(PhaseOf(trace), m)
    ensures var (m2, pumped) := MaybeSendPendingMatchStart(m, now);
            Matches(PhaseOf(trace + Stamp(pumped, now)), m2)
  {
    PumpMatches(m, PhaseOf(trace), now);
    PhaseOfAppend(trace, Stamp(MaybeSendPendingMatchStart(m, now).1, now));
  }

  /** What one turn adds to the trace, in two parts. */
  lemma TraceParts(c: Config, inputs: seq<Input>)
    requires inputs != []
    ensures var front, i := inputs[..|inputs| - 1], inputs[|inputs| - 1];
            var mid := Trace(c, front) + Handled(c, After(c, front), i);
            var m1 := Handle(c, After(c, front), i.event, i.now).0;
            Trace(c, inputs) ==
            if i.event.Malformed? then mid else mid + Stamp(MaybeSendPendingMatchStart(m1, i.pump).1, i.pump)
  {
  }

  lemma {:induction false} RunMatches(c: Config, inputs: seq<Input>)
    ensures Matches(PhaseOf(Trace(c, inputs)), After(c, inputs))
  {
    if inputs == [] {
    } else {
      var front, i := inputs[..|inputs| - 1], inputs[|inputs| - 1];
      var m := After(c, front);
      RunMatches(c, front);
      HandledPartMatches(c, m, Trace(c, front), i);
      TraceParts(c, inputs);
      if !i.event.Malformed? {
        PumpedPartMatches(Handle(c, m, i.event, i.now).0, Trace(c, front) + Handled(c, m, i), i.pump);
      }
    }
  }

  /** The words an activation may emit: nothing, start, end, or start and end,
      with the start line no sooner than the delay. */
  ghost predicate AllowedWord(at: real, word: seq<Out>) {
    || word == []
    || (|word| == 1 && IsStart(at, word[0]))
    || (|word| == 1 && IsEnd(word[0]))
    || (|word| == 2 && IsStart(at, word[0]) && IsEnd(word[1]))
  }

  predicate IsStart(at: real, o: Out) {
    o.Emitted? && o.line.StartLine? && o.at >= at + 2.0
  }

  predicate IsEnd(o: Out) { o.Emitted? && o.line.EndLine? }

  lemma {:induction false} BrokenStays(trace: seq<Out>, k: nat)
    requires k <= |trace| && !PhaseOf(trace).Broken?
    ensures !PhaseOf(trace[..k]).Broken?
    decreases |trace| - k
  {
    if k < |trace| {
      BrokenStays(trace, k + 1);
      assert trace[..k + 1][..k] == trace[..k];
    } else {
      assert trace[..k] == trace;
    }
  }

  /** An activation at i and no other one before j. */
  ghost predicate Episode(trace: seq<Out>, i: nat, j: nat) {
    i < j <= |trace| && trace[i].Activated? && forall k :: i < k < j ==> trace[k].Emitted?
  }

  lemma {:induction false} WordSoFar(trace: seq<Out>, i: nat, j: nat)
    requires Episode(trace, i, j) && !PhaseOf(trace).Broken?
    ensures AllowedWord(trace[i].at, trace[i + 1..j])
    ensures var word := trace[i + 1..j];
            PhaseOf(trace[..j]) ==
            if word == [] then Open(trace[i].at) else if IsEnd(word[|word| - 1]) then Over else Running
    decreases j
  {
    BrokenStays(trace, j);
    assert trace[..j][..j - 1] == trace[..j - 1];
    if j > i + 1 {
      WordSoFar(trace, i, j - 1);
      assert trace[i + 1..j] == trace[i + 1..j - 1] + [trace[j - 1]];
    } else {
      BrokenStays(trace, i);
    }
  }

  /** Over any run, what is emitted between one activation and the next (or the
      end of the run) is one of the four words, and nothing is emitted before the
      first activation. No assumption on the clock is needed. */
  lemma OutputGrammar(c: Config, inputs: seq<Input>)
    ensures var trace := Trace(c, inputs);
            && (trace != [] ==> trace[0].Activated?)
            && (forall i: nat, j: nat :: Episode(trace, i, j) ==> AllowedWord(trace[i].at, trace[i + 1..j]))
  {
    var trace := Trace(c, inputs);
    RunMatches(c, inputs);
    if trace != [] {
      BrokenStays(trace, 1);
      assert trace[..1][..0] == [];
    }
    forall i: nat, j: nat | Episode(trace, i, j)
      ensures AllowedWord(trace[i].at, trace[i + 1..j])
    {
      WordSoFar(trace, i, j);
    }
  }

  /** No pump since input k came two seconds after its clock. */
  ghost predicate NotYetDue(inputs: seq<Input>, k: nat)
    requires k < |inputs|
  {
    forall l: nat :: k <= l < |inputs| && !inputs[l].event.Malformed? ==> inputs[l].pump < inputs[k].now + 2.0
  }

  lemma TurnKeepsPending(c: Config, m: State, i: Input)
    requires Settled(m)
    ensures var (m', handled, pumped) := Turn(c, m, i);
            && (Activates(c, m, i.event, i.now) ==>
                  && (m'.pending <==> i.pump < i.now + 2.0)
                  && (m'.pending ==> m'.pendingAt == Some(i.now + 2.0))
                  && m'.gametype == i.event.gametype
                  && pumped == if m'.pending then [] else [StartLine])
            && (!Activates(c, m, i.event, i.now) && handled == [] ==>
                  && (m'.pending <==> m.pending && (i.event.Malformed? || i.pump < m.pendingAt.value))
                  && (m'.pending ==> m'.pendingAt == m.pendingAt)
                  && m'.gametype == m.gametype
                  && pumped == if m.pending && !m'.pending then [StartLine] else [])
            && (!Activates(c, m, i.event, i.now) && handled != [] ==> pumped == [])
  {
  }

  /** While a match is on its start line is pending exactly until a pump is due. */
  lemma {:induction false} PendingMeansNotYetDue(c: Config, inputs: seq<Input>, k: nat)
    requires k < |inputs| && OngoingSince(c, inputs, k)
    ensures var m := After(c, inputs);
            && (m.pending <==> NotYetDue(inputs, k))
            && (m.pending ==> m.pendingAt == Some(inputs[k].now + 2.0))
            && m.gametype == inputs[k].event.gametype
  {
    var n := |inputs| - 1;
    AlwaysSettled(c, inputs[..n]);
    TurnKeepsPending(c, After(c, inputs[..n]), inputs[n]);
    if k == n {
    } else {
      OngoingStep(c, inputs, k);
      PendingMeansNotYetDue(c, inputs[..n], k);
      assert forall l: nat :: l < n ==> inputs[..n][l] == inputs[l];
    }
  }

  /** The start line of a match is sent once, by the first pump two seconds after its
      activation, unless the match ends or another is activated before it. */
  lemma StartSentExactly(c: Config, inputs: seq<Input>, k: nat, i: Input)
    requires k < |inputs| && OngoingSince(c, inputs, k)
    ensures var (_, handled, pumped) := Turn(c, After(c, inputs), i);
            !Activates(c, After(c, inputs), i.event, i.now) ==>
              (pumped == [StartLine] <==>
               handled == [] && !i.event.Malformed? && NotYetDue(inputs, k) && inputs[k].now + 2.0 <= i.pump)
  {
    PendingMeansNotYetDue(c, inputs, k);
    AlwaysSettled(c, inputs);
    TurnKeepsPending(c, After(c, inputs), i);
  }

  // ----- where activations come from ---------------------------------------------

  predicate IsVote(i: Input) {
    i.event.RawLine? && !i.event.raw.empty && i.event.raw.votePassed
  }

  /** The last passed vote that no init_game has followed. */
  function LastVote(inputs: seq<Input>): (r: Option<nat>)
    ensures r.Some? ==> r.value < |inputs| && IsVote(inputs[r.value])
    ensures r.Some? ==> forall k :: r.value < k < |inputs| ==> !inputs[k].event.InitGame?
  {
    if inputs == [] then None
    else
      var n := |inputs| - 1;
      if IsVote(inputs[n]) then Some(n)
      else if inputs[n].event.InitGame? then None
      else LastVote(inputs[..n])
  }

  predicate ActivatesAt(c: Config, inputs: seq<Input>, i: nat)
    requires i < |inputs|
  {
    Activates(c, After(c, inputs[..i]), inputs[i].event, inputs[i].now)
  }

  /** Being armed is having an unused vote, and remembers its time. */
  lemma {:induction false} ArmedMeansVoted(c: Config, inputs: seq<Input>)
    ensures var v := LastVote(inputs);
            && (After(c, inputs).armed <==> v.Some?)
            && (v.Some? ==> After(c, inputs).armedAt == Some(inputs[v.value].now))
  {
    AlwaysSettled(c, inputs);
    if inputs == [] {
    } else {
      var n := |inputs| - 1;
      ArmedMeansVoted(c, inputs[..n]);
      AlwaysSettled(c, inputs[..n]);
      ArmingTurn(c, After(c, inputs[..n]), inputs[n]);
    }
  }

  ghost predicate Rearmed(m: State, m': State, i: Input) {
    if IsVote(i) then m'.armed && m'.armedAt == Some(i.now)
    else if i.event.InitGame? then !m'.armed && m'.armedAt.None?
    else m'.armed == m.armed && m'.armedAt == m.armedAt
  }

  lemma ArmingHandle(c: Config, m: State, i: Input)
    ensures Rearmed(m, Handle(c, m, i.event, i.now).0, i)
  {
  }

  lemma ArmingTurn(c: Config, m: State, i: Input)
    ensures Rearmed(m, Turn(c, m, i).0, i)
  {
    ArmingHandle(c, m, i);
    var m1 := Handle(c, m, i.event, i.now).0;
    var m2 := MaybeSendPendingMatchStart(m1, i.pump).0;
    assert m2.armed == m1.armed && m2.armedAt == m1.armedAt;
  }

  /** An init_game activates exactly when its game type is supported and, where the vote
      is required, one passed at most 30 s ago with no init_game since. */
  lemma ActivationNeedsAVote(c: Config, inputs: seq<Input>, i: nat)
    requires i < |inputs|
    ensures var e := inputs[i].event;
            var v := LastVote(inputs[..i]);
            ActivatesAt(c, inputs, i) <==>
            && e.InitGame? && e.gametype.Some? && e.gametype.value in c.gametypes
            && (c.requireVote ==> v.Some? && inputs[i].now - inputs[v.value].now <= 30.0)
  {
    ArmedMeansVoted(c, inputs[..i]);
    AlwaysSettled(c, inputs[..i]);
  }

  /** Different activations use different votes. */
  lemma VotesAreNotShared(c: Config, inputs: seq<Input>, i: nat, j: nat)
    requires i < j < |inputs| && c.requireVote
    requires ActivatesAt(c, inputs, i) && ActivatesAt(c, inputs, j)
    ensures LastVote(inputs[..i]).Some? && LastVote(inputs[..j]).Some?
    ensures LastVote(inputs[..i]).value < i < LastVote(inputs[..j]).value < j
  {
    ActivationNeedsAVote(c, inputs, i);
    ActivationNeedsAVote(c, inputs, j);
    var v := LastVote(inputs[..j]).value;
    assert inputs[..j][i].event.InitGame?;
    assert !IsVote(inputs[..j][i]);
  }

  function CountVotes(inputs: seq<Input>): nat {
    if inputs == [] then 0
    else CountVotes(inputs[..|inputs| - 1]) + if IsVote(inputs[|inputs| - 1]) then 1 else 0
  }

  function CountActivated(trace: seq<Out>): nat {
    if trace == [] then 0
    else CountActivated(trace[..|trace| - 1]) + if trace[|trace| - 1].Activated? then 1 else 0
  }

  function CountEnds(trace: seq<Out>): nat {
    if trace == [] then 0
    else CountEnds(trace[..|trace| - 1]) + if IsEnd(trace[|trace| - 1]) then 1 else 0
  }

  lemma {:induction false} EndsBelowActivations(trace: seq<Out>)
    requires !PhaseOf(trace).Broken?
    ensures CountEnds(trace) + (if PhaseOf(trace).Open? || PhaseOf(trace).Running? then 1 else 0) <=
            CountActivated(trace)
  {
    if trace == [] {
    } else {
      EndsBelowActivations(trace[..|trace| - 1]);
    }
  }

  lemma {:induction false} CountActivatedAppend(a: seq<Out>, b: seq<Out>)
    ensures CountActivated(a + b) == CountActivated(a) + CountActivated(b)
  {
    if b == [] {
      assert a + b == a;
    } else {
      assert (a + b)[..|a + b| - 1] == a + b[..|b| - 1];
      CountActivatedAppend(a, b[..|b| - 1]);
    }
  }

  lemma {:induction false} StampedAreLines(lines: seq<Line>, at: real)
    ensures CountActivated(Stamp(lines, at)) == 0
  {
    if lines == [] {
    } else {
      var n := |lines| - 1;
      assert Stamp(lines, at)[..n] == Stamp(lines[..n], at);
      StampedAreLines(lines[..n], at);
    }
  }

  lemma {:induction false} ActivationsBelowVotes(c: Config, inputs: seq<Input>)
    requires c.requireVote
    ensures CountActivated(Trace(c, inputs)) + (if After(c, inputs).armed then 1 else 0) <= CountVotes(inputs)
  {
    if inputs == [] {
    } else {
      var n := |inputs| - 1;
      var m := After(c, inputs[..n]);
      ActivationsBelowVotes(c, inputs[..n]);
      var front, i := Trace(c, inputs[..n]), inputs[n];
      TraceParts(c, inputs);
      var marks := if Activates(c, m, i.event, i.now) then [Activated(i.now)] else [];
      var (m1, handled) := Handle(c, m, i.event, i.now);
      var pumped := MaybeSendPendingMatchStart(m1, i.pump).1;
      StampedAreLines(handled, i.now);
      StampedAreLines(pumped, i.pump);
      CountActivatedAppend(marks, Stamp(handled, i.now));
      CountActivatedAppend(front, Handled(c, m, i));
      CountActivatedAppend(front + Handled(c, m, i), Stamp(pumped, i.pump));
      ArmingTurn(c, m, inputs[n]);
    }
  }

  /** When the vote is required, end lines are at most as many as activations, and
      activations at most as many as passed votes. */
  lemma EndsBelowActivationsBelowVotes(c: Config, inputs: seq<Input>)
    requires c.requireVote
    ensures CountEnds(Trace(c, inputs)) <= CountActivated(Trace(c, inputs)) <= CountVotes(inputs)
  {
    RunMatches(c, inputs);
    EndsBelowActivations(Trace(c, inputs));
    ActivationsBelowVotes(c, inputs);
  }
}
