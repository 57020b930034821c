/** The AKA store of internal/antivpn/aka_store.go: the latest and the previous name
    seen per address, bounded by age and by number. */
module Aka {
  import opened Text
  import PlayerName
  import Sets

  /** Instants are seconds; 0 is Go's zero time. */
  datatype AkaRecord = AkaRecord(latest: string, previous: string, firstSeen: int, lastSeen: int, seenCount: nat)

  const NOBODY := "-"

  // ----- runs of equivalent names: the reference -----------------------------------

  /** sameAkaName compares names trimmed and case-folded. Any equivalence on names is
      the equality of some key, and which one it is does not matter here. */
  type Fold = string -> string

  predicate SameAkaName(fold: Fold, a: string, b: string) {
    fold(a) == fold(b)
  }

  /** The first name of every maximal run of equivalent names. */
  function Runs(fold: Fold, names: seq<string>): (r: seq<string>)
    ensures |r| <= |names| && (r == [] <==> names == [])
  {
    if names == [] then []
    else
      var n := |names| - 1;
      var r := Runs(fold, names[..n]);
      if r != [] && SameAkaName(fold, r[|r| - 1], names[n]) then r else r + [names[n]]
  }

  /** A name starts a run exactly when it is the first or differs from the one before. */
  predicate StartsRun(fold: Fold, names: seq<string>, i: nat)
    requires i < |names|
  {
    i == 0 || !SameAkaName(fold, names[i - 1], names[i])
  }

  function Starts(fold: Fold, names: seq<string>, upTo: nat): seq<string>
    requires upTo <= |names|
  {
    if upTo == 0 then []
    else Starts(fold, names, upTo - 1) + if StartsRun(fold, names, upTo - 1) then [names[upTo - 1]] else []
  }

  /** One more name either belongs to the last run or starts one. */
  lemma RunsStep(fold: Fold, names: seq<string>, k: nat)
    requires 0 < k <= |names|
    ensures var before := Runs(fold, names[..k - 1]);
            Runs(fold, names[..k]) ==
            if before != [] && SameAkaName(fold, before[|before| - 1], names[k - 1]) then before
            else before + [names[k - 1]]
  {
    assert names[..k][..k - 1] == names[..k - 1];
  }

  /** Runs found by comparing neighbours; the last run holds the last name; neighbouring
      runs differ. */
  ghost predicate Maximal(fold: Fold, runs: seq<string>, names: seq<string>, k: nat)
    requires k <= |names|
  {
    && runs == Starts(fold, names, k)
    && (k > 0 ==> runs != [] && SameAkaName(fold, runs[|runs| - 1], names[k - 1]))
    && (forall i :: 0 < i < |runs| ==> !SameAkaName(fold, runs[i - 1], runs[i]))
  }

  lemma MaximalStep(fold: Fold, before: seq<string>, names: seq<string>, k: nat)
    requires 0 < k <= |names| && Maximal(fold, before, names, k - 1) && (k == 1 ==> before == [])
    ensures Maximal(fold, if before != [] && SameAkaName(fold, before[|before| - 1], names[k - 1]) then before
                          else before + [names[k - 1]], names, k)
  {
  }

  lemma {:induction false} RunsAreMaximal(fold: Fold, names: seq<string>, k: nat)
    requires k <= |names|
    ensures Maximal(fold, Runs(fold, names[..k]), names, k)
  {
    if k == 0 {
    } else {
      RunsAreMaximal(fold, names, k - 1);
      RunsStep(fold, names, k);
      MaximalStep(fold, Runs(fold, names[..k - 1]), names, k);
    }
  }

  function LatestOf(runs: seq<string>): string
    requires runs != []
  {
    runs[|runs| - 1]
  }

  function PreviousOf(runs: seq<string>): string
    requires runs != []
  {
    if |runs| == 1 then "" else runs[|runs| - 2]
  }

  /** The answer the history calls for. */
  function FormerName(runs: seq<string>): string
    requires runs != []
  {
    if |runs| == 1 then NOBODY else runs[|runs| - 2]
  }

  // ----- one update, as a function --------------------------------------------------

  function Update(fold: Fold, stored: Option<AkaRecord>, name: string, now: int): (AkaRecord, string) {
    match stored
    case None => (AkaRecord(name, "", now, now, 1), NOBODY)
    case Some(r) =>
      var firstSeen := if r.firstSeen == 0 then now else r.firstSeen;
      if !SameAkaName(fold, r.latest, name) then
        if TrimSpace(r.latest) != "" then (AkaRecord(name, r.latest, firstSeen, now, r.seenCount + 1), r.latest)
        else (AkaRecord(name, r.previous, firstSeen, now, r.seenCount + 1), NOBODY)
      else
        (AkaRecord(r.latest, r.previous, firstSeen, now, r.seenCount + 1),
         if TrimSpace(r.previous) != "" && !SameAkaName(fold, r.previous, name) then r.previous else NOBODY)
  }

  /** A record that tells the runs of the names it has seen. */
  ghost predicate Tells(fold: Fold, r: AkaRecord, names: seq<string>) {
    && names != []
    && AllNonblank(names)
    && r.latest == LatestOf(Runs(fold, names))
    && r.previous == PreviousOf(Runs(fold, names))
    && r.seenCount == |names|
  }

  lemma {:induction false} RunsAreNonblank(fold: Fold, names: seq<string>)
    requires AllNonblank(names)
    ensures AllNonblank(Runs(fold, names))
  {
    if names == [] {
    } else {
      RunsAreNonblank(fold, names[..|names| - 1]);
    }
  }

  lemma RunsSnoc(fold: Fold, names: seq<string>, name: string)
    requires names != []
    ensures var runs := Runs(fold, names);
            Runs(fold, names + [name]) == if SameAkaName(fold, LatestOf(runs), name) then runs else runs + [name]
  {
    var all := names + [name];
    assert all[..|all| - 1] == names;
  }

  /** Neighbouring runs differ. */
  lemma RunsDiffer(fold: Fold, names: seq<string>)
    requires |Runs(fold, names)| > 1
    ensures !SameAkaName(fold, PreviousOf(Runs(fold, names)), LatestOf(Runs(fold, names)))
  {
    RunsAreMaximal(fold, names, |names|);
    assert names[..|names|] == names;
  }

  predicate Nonblank(s: string) { TrimSpace(s) != "" }

  predicate AllNonblank(names: seq<string>) { forall i :: 0 <= i < |names| ==> Nonblank(names[i]) }

  /** The names an update leaves and its answer, in terms of the runs. */
  lemma UpdateOnRuns(fold: Fold, r: AkaRecord, runs: seq<string>, name: string, now: int)
    requires runs != [] && r.latest == LatestOf(runs) && r.previous == PreviousOf(runs)
    requires Nonblank(r.latest) && (|runs| > 1 ==> Nonblank(r.previous) && !SameAkaName(fold, r.previous, r.latest))
    ensures var (r', answer) := Update(fold, Some(r), name, now);
            var runs' := if SameAkaName(fold, r.latest, name) then runs else runs + [name];
            && r'.latest == LatestOf(runs') && r'.previous == PreviousOf(runs')
            && r'.seenCount == r.seenCount + 1 && answer == FormerName(runs')
  {
    assert TrimSpace("") == "";
  }

  /** Updating with one more name keeps the record truthful, and the answer is the
      representative of the run before the current one. */
  lemma UpdateTellsRuns(fold: Fold, r: AkaRecord, names: seq<string>, name: string, now: int)
    requires Tells(fold, r, names) && Nonblank(name)
    ensures var (r', answer) := Update(fold, Some(r), name, now);
            Tells(fold, r', names + [name]) && answer == FormerName(Runs(fold, names + [name]))
  {
    var runs := Runs(fold, names);
    RunsSnoc(fold, names, name);
    RunsAreNonblank(fold, names);
    if |runs| > 1 {
      RunsDiffer(fold, names);
    }
    UpdateOnRuns(fold, r, runs, name, now);
  }

  lemma FirstUpdateTellsRuns(fold: Fold, name: string, now: int)
    requires Nonblank(name)
    ensures var (r', answer) := Update(fold, None, name, now);
            Tells(fold, r', [name]) && answer == FormerName(Runs(fold, [name]))
  {
    assert [name][..0] == [];
    assert Runs(fold, [name]) == [name];
  }

  /** The stored names are never equivalent. */
  lemma StoredNamesDiffer(fold: Fold, r: AkaRecord, names: seq<string>)
    requires Tells(fold, r, names) && r.previous != ""
    ensures !SameAkaName(fold, r.previous, r.latest)
  {
    RunsDiffer(fold, names);
  }

  // ----- pruning ----------------------------------------------------------------------

  predicate Expired(r: AkaRecord, ttl: int, now: int) {
    ttl > 0 && r.lastSeen != 0 && r.lastSeen < now - ttl
  }

  /** What pruning may leave: all unexpired records, less the oldest ones above the
      limit; equal times are broken either way. */
  ghost predicate PrunedTo(before: map<string, AkaRecord>, after: map<string, AkaRecord>, maxEntries: int, ttl: int,
                           now: int) {
    && (forall ip :: ip in after ==> ip in before && after[ip] == before[ip] && !Expired(before[ip], ttl, now))
    && (maxEntries > 0 ==> |after| <= maxEntries)
    && (forall ip :: ip in before && ip !in after && !Expired(before[ip], ttl, now) ==>
          && maxEntries > 0 && |after| == maxEntries
          && forall other :: other in after ==> before[ip].lastSeen <= after[other].lastSeen)
  }

  method OldestOf(records: map<string, AkaRecord>) returns (oldest: string)
    requires records != map[]
    ensures oldest in records
    ensures forall ip :: ip in records ==> records[oldest].lastSeen <= records[ip].lastSeen
  {
    oldest :| oldest in records;
    var todo := records.Keys;
    while todo != {}
      invariant todo <= records.Keys && oldest in records
      invariant forall ip :: ip in records && ip !in todo ==> records[oldest].lastSeen <= records[ip].lastSeen
      decreases todo
    {
      var ip :| ip in todo;
      todo := todo - {ip};
      if records[ip].lastSeen < records[oldest].lastSeen {
        oldest := ip;
      }
    }
  }

  method DropExpired(records: map<string, AkaRecord>, ttl: int, now: int) returns (kept: map<string, AkaRecord>)
    ensures kept == map ip | ip in records && !Expired(records[ip], ttl, now) :: records[ip]
  {
    kept := records;
    if ttl > 0 {
      var cutoff := now - ttl;
      var todo := records.Keys;
      while todo != {}
        invariant todo <= kept.Keys <= records.Keys
        invariant forall ip :: ip in kept ==> kept[ip] == records[ip] && (ip in todo || !Expired(records[ip], ttl, now))
        invariant forall ip :: ip in records && ip !in kept ==> Expired(records[ip], ttl, now)
        decreases todo
      {
        var ip :| ip in todo;
        todo := todo - {ip};
        if kept[ip].lastSeen != 0 && kept[ip].lastSeen < cutoff {
          kept := kept - {ip};
        }
      }
    }
  }

  /** Age first, then the oldest records above the limit, one by one in the order the
      program's sort gives them. */
  method PruneRecords(records: map<string, AkaRecord>, maxEntries: int, ttl: int, now: int)
    returns (left: map<string, AkaRecord>)
    ensures PrunedTo(records, left, maxEntries, ttl, now)
  {
    left := DropExpired(records, ttl, now);
    if maxEntries <= 0 || |left| <= maxEntries {
      return;
    }
    ghost var kept := left;
    while |left| > maxEntries
      invariant forall ip :: ip in left ==> ip in kept && left[ip] == kept[ip]
      invariant |left| >= maxEntries
      invariant forall gone, ip :: gone in kept && gone !in left && ip in left ==>
                  kept[gone].lastSeen <= left[ip].lastSeen
      decreases |left|
    {
      var oldest := OldestOf(left);
      left := Without(left, oldest);
    }
  }

  function Without(m: map<string, AkaRecord>, ip: string): (r: map<string, AkaRecord>)
    requires ip in m
    ensures |r| == |m| - 1
    ensures forall k :: k in r <==> k in m && k != ip
    ensures forall k :: k in r ==> r[k] == m[k]
  {
    var r := m - {ip};
    assert r.Keys == m.Keys - {ip};
    r
  }

  // ----- one Record call, as a relation -------------------------------------------------------

  function Stored(records: map<string, AkaRecord>, ip: string): Option<AkaRecord> {
    if ip in records then Some(records[ip]) else None
  }

  /** One call, with its trimmed address and sanitized name: what survived the first
      pruning, what the second left, and the answer. */
  datatype Turn = Turn(
    ip: string,
    name: string,
    now: int,
    survivors: map<string, AkaRecord>,
    after: map<string, AkaRecord>,
    answer: string)

  ghost predicate RecordStep(fold: Fold, maxEntries: int, ttl: int, before: map<string, AkaRecord>, t: Turn) {
    if t.ip == "" then t.survivors == before && t.after == before && t.answer == NOBODY
    else
      var (record, answer) := Update(fold, Stored(t.survivors, t.ip), t.name, t.now);
      && PrunedTo(before, t.survivors, maxEntries, ttl, t.now)
      && PrunedTo(t.survivors[t.ip := record], t.after, maxEntries, ttl, t.now)
      && t.answer == answer
  }

  // ----- the program's object ------------------------------------------------------------

  class AkaStore {
    const fold: Fold
    const maxEntries: int
    const ttl: int
    var records: map<string, AkaRecord>

    /** The names recorded for each stored address since its record was created. */
    ghost var history: map<string, seq<string>>

    ghost predicate Valid()
      reads this
    {
      && history.Keys == records.Keys
      && forall ip :: ip in records ==> Tells(fold, records[ip], history[ip])
    }

    constructor (fold: Fold, maxEntries: int, ttl: int)
      ensures Valid() && records == map[] && history == map[]
      ensures this.fold == fold && this.maxEntries == maxEntries && this.ttl == ttl
    {
      this.fold, this.maxEntries, this.ttl := fold, maxEntries, ttl;
      records, history := map[], map[];
    }

    method PruneLocked(now: int)
      requires Valid()
      modifies this
      ensures Valid()
      ensures PrunedTo(old(records), records, maxEntries, ttl, now)
      ensures history == map ip | ip in records && ip in old(history) :: old(history)[ip]
    {
      records := PruneRecords(records, maxEntries, ttl, now);
      history := map ip | ip in records && ip in history :: history[ip];
    }

    /** The update between the two prunings. */
    method Touch(ip: string, name: string, now: int) returns (answer: string)
      requires Valid() && Nonblank(name)
      modifies this
      ensures Valid()
      ensures records == old(records)[ip := Update(fold, Stored(old(records), ip), name, now).0]
      ensures history == old(history)[ip := NamesOf(old(history), ip) + [name]]
      ensures answer == Update(fold, Stored(old(records), ip), name, now).1
      ensures answer == FormerName(Runs(fold, NamesOf(old(history), ip) + [name]))
    {
      var (record, aka) := Update(fold, Stored(records, ip), name, now);
      if ip in records {
        UpdateTellsRuns(fold, records[ip], history[ip], name, now);
      } else {
        FirstUpdateTellsRuns(fold, name, now);
        assert [] + [name] == [name];
      }
      history := history[ip := NamesOf(history, ip) + [name]];
      records := records[ip := record];
      return aka;
    }

    /** Record a sanitized name for a trimmed address. The answer is the representative of
        the last run of equivalent names before the current one, over the names recorded
        since the address's record last survived pruning. */
    method RecordAt(ip: string, name: string, now: int)
      returns (answer: string, ghost survivors: map<string, AkaRecord>)
      requires Valid() && ip != "" && Nonblank(name)
      modifies this
      ensures Valid()
      ensures RecordStep(fold, maxEntries, ttl, old(records), Turn(ip, name, now, survivors, records, answer))
      ensures answer == FormerName(Runs(fold, NamesKept(old(history), survivors, ip) + [name]))
      ensures ip in records ==> history[ip] == NamesKept(old(history), survivors, ip) + [name]
      ensures forall k :: k in records && k != ip ==>
                k in survivors && k in old(history) && history[k] == old(history)[k]
    {
      PruneLocked(now);
      survivors := records;
      answer := Touch(ip, name, now);
      PruneLocked(now);
    }

    /** The program's entry: a blank address is not recorded, and the zero time stands for
        the clock. */
    method Record(rawIp: string, playerName: string, given: int, clock: int)
      returns (answer: string, ghost survivors: map<string, AkaRecord>)
      requires Valid() && clock != 0
      modifies this
      ensures Valid()
      ensures TrimSpace(rawIp) == "" ==> answer == "-" && records == old(records) && history == old(history)
      ensures RecordStep(fold, maxEntries, ttl, old(records),
                         Turn(TrimSpace(rawIp), PlayerName.SanitizePlayerName(playerName), TimeOf(given, clock),
                              survivors, records, answer))
      ensures TrimSpace(rawIp) != "" ==>
                var ip, name := TrimSpace(rawIp), PlayerName.SanitizePlayerName(playerName);
                && answer == FormerName(Runs(fold, NamesKept(old(history), survivors, ip) + [name]))
                && (ip in records ==> history[ip] == NamesKept(old(history), survivors, ip) + [name])
                && (forall k :: k in records && k != ip ==>
                      k in survivors && k in old(history) && history[k] == old(history)[k])
    {
      survivors := records;
      var ip := TrimSpace(rawIp);
      if ip == "" {
        return NOBODY, survivors;
      }
      answer, survivors := RecordAt(ip, PlayerName.SanitizePlayerName(playerName), TimeOf(given, clock));
    }
  }

  /** now.IsZero() */
  function TimeOf(given: int, clock: int): (now: int)
    requires clock != 0
    ensures now != 0 && (given != 0 ==> now == given)
  {
    if given == 0 then clock else given
  }

  function NamesOf(history: map<string, seq<string>>, ip: string): seq<string> {
    if ip in history then history[ip] else []
  }

  /** The names of a record that survived, or none. */
  function NamesKept(history: map<string, seq<string>>, survivors: map<string, AkaRecord>, ip: string): seq<string> {
    if ip in survivors then NamesOf(history, ip) else []
  }

  lemma EvictedHasANewer(before: map<string, AkaRecord>, after: map<string, AkaRecord>, maxEntries: int, ttl: int,
                         now: int, ip: string)
    requires PrunedTo(before, after, maxEntries, ttl, now)
    requires ip in before && !Expired(before[ip], ttl, now)
    ensures ip !in after ==>
              exists other :: other in before && other != ip && before[ip].lastSeen <= before[other].lastSeen
  {
    if ip !in after {
      assert |after| == maxEntries > 0;
      var other := Sets.Pick(after.Keys);
      assert other in before && other != ip && before[ip].lastSeen <= before[other].lastSeen;
    }
  }

  /** A record of this instant, newer than all others, survives pruning at it. */
  lemma NewestSurvives(before: map<string, AkaRecord>, after: map<string, AkaRecord>, maxEntries: int, ttl: int,
                       now: int, ip: string)
    requires PrunedTo(before, after, maxEntries, ttl, now)
    requires ip in before && before[ip].lastSeen == now
    requires forall other :: other in before && other != ip ==> before[other].lastSeen < now
    ensures ip in after
  {
    EvictedHasANewer(before, after, maxEntries, ttl, now, ip);
  }

  /** Through one Record call: the store ends within its limit, and a name recorded
      strictly later than all stored ones is kept. */
  lemma RecordKeepsTheNewest(before: map<string, AkaRecord>, survivors: map<string, AkaRecord>,
                             after: map<string, AkaRecord>, maxEntries: int, ttl: int, now: int,
                             ip: string, r: AkaRecord)
    requires PrunedTo(before, survivors, maxEntries, ttl, now)
    requires r.lastSeen == now && PrunedTo(survivors[ip := r], after, maxEntries, ttl, now)
    requires forall other :: other in before ==> before[other].lastSeen < now
    ensures ip in after && after[ip] == r
    ensures maxEntries > 0 ==> |after| <= maxEntries
  {
    NewestSurvives(survivors[ip := r], after, maxEntries, ttl, now, ip);
  }

  // ----- whole runs from an empty store -------------------------------------------------------

  /** What the store holds before turn n. */
  function Before(turns: seq<Turn>, n: nat): map<string, AkaRecord>
    requires n <= |turns|
  {
    if n == 0 then map[] else turns[n - 1].after
  }

  ghost predicate StepAt(fold: Fold, maxEntries: int, ttl: int, turns: seq<Turn>, i: nat)
    requires i < |turns|
  {
    RecordStep(fold, maxEntries, ttl, Before(turns, i), turns[i]) && Nonblank(turns[i].name) && turns[i].now != 0
  }

  ghost predicate IsRun(fold: Fold, maxEntries: int, ttl: int, turns: seq<Turn>) {
    forall i: nat :: i < |turns| ==> StepAt(fold, maxEntries, ttl, turns, i)
  }

  /** What a call leaves is its own record, and others as they were. */
  lemma StepLeaves(fold: Fold, maxEntries: int, ttl: int, before: map<string, AkaRecord>, t: Turn, ip: string)
    requires RecordStep(fold, maxEntries, ttl, before, t) && ip in t.after
    ensures t.ip != "" && ip == t.ip ==> t.after[ip] == Update(fold, Stored(t.survivors, t.ip), t.name, t.now).0
    ensures t.ip == "" || ip != t.ip ==> ip in t.survivors && ip in before && t.after[ip] == before[ip]
  {
  }

  /** The names recorded for an address in the first n turns, since its record was last
      missing after a pruning. */
  function NamesSince(turns: seq<Turn>, n: nat, ip: string): seq<string>
    requires n <= |turns|
    decreases n, 0
  {
    if n == 0 then []
    else
      var t := turns[n - 1];
      if t.ip == "" then NamesSince(turns, n - 1, ip)
      else if ip !in t.after then []
      else NamesInTurn(turns, n - 1, ip) + if t.ip == ip then [t.name] else []
  }

  /** Those of them that turn n still finds: none when the first pruning took the
      record. */
  function NamesInTurn(turns: seq<Turn>, n: nat, ip: string): seq<string>
    requires n < |turns|
    decreases n, 1
  {
    if ip in turns[n].survivors then NamesSince(turns, n, ip) else []
  }

  /** The store knows exactly the names of its addresses since then. */
  ghost predicate TellsAll(fold: Fold, records: map<string, AkaRecord>, turns: seq<Turn>, n: nat)
    requires n <= |turns|
  {
    forall ip :: ip in records ==> Tells(fold, records[ip], NamesSince(turns, n, ip))
  }

  /** One turn's update, in terms of the names since then. */
  lemma TurnAnswers(fold: Fold, maxEntries: int, ttl: int, turns: seq<Turn>, n: nat)
    requires IsRun(fold, maxEntries, ttl, turns) && n < |turns| && turns[n].ip != ""
    requires TellsAll(fold, Before(turns, n), turns, n)
    ensures var t := turns[n];
            var names := NamesInTurn(turns, n, t.ip) + [t.name];
            && Tells(fold, Update(fold, Stored(t.survivors, t.ip), t.name, t.now).0, names)
            && t.answer == FormerName(Runs(fold, names))
  {
    var t := turns[n];
    assert StepAt(fold, maxEntries, ttl, turns, n);
    if t.ip in t.survivors {
      assert t.survivors[t.ip] == Before(turns, n)[t.ip];
      UpdateTellsRuns(fold, t.survivors[t.ip], NamesSince(turns, n, t.ip), t.name, t.now);
    } else {
      FirstUpdateTellsRuns(fold, t.name, t.now);
      assert [] + [t.name] == [t.name];
    }
  }

  /** The names after a turn, for an address that is still stored. */
  lemma NamesAfterTurn(turns: seq<Turn>, n: nat, ip: string)
    requires n < |turns| && ip in turns[n].after
    ensures turns[n].ip == "" ==> NamesSince(turns, n + 1, ip) == NamesSince(turns, n, ip)
    ensures turns[n].ip != "" && ip == turns[n].ip ==>
              NamesSince(turns, n + 1, ip) == NamesInTurn(turns, n, ip) + [turns[n].name]
    ensures turns[n].ip != "" && ip != turns[n].ip && ip in turns[n].survivors ==>
              NamesSince(turns, n + 1, ip) == NamesSince(turns, n, ip)
  {
    assert NamesSince(turns, n, ip) + [] == NamesSince(turns, n, ip);
  }

  lemma TurnTells(fold: Fold, maxEntries: int, ttl: int, turns: seq<Turn>, n: nat, ip: string)
    requires IsRun(fold, maxEntries, ttl, turns) && n < |turns| && ip in turns[n].after
    requires TellsAll(fold, Before(turns, n), turns, n)
    ensures Tells(fold, turns[n].after[ip], NamesSince(turns, n + 1, ip))
  {
    var t := turns[n];
    assert StepAt(fold, maxEntries, ttl, turns, n);
    if t.ip != "" {
      TurnAnswers(fold, maxEntries, ttl, turns, n);
    }
    StepLeaves(fold, maxEntries, ttl, Before(turns, n), t, ip);
    NamesAfterTurn(turns, n, ip);
  }

  lemma TurnTellsAll(fold: Fold, maxEntries: int, ttl: int, turns: seq<Turn>, n: nat, next: nat)
    requires IsRun(fold, maxEntries, ttl, turns) && n < |turns| && next == n + 1
    requires TellsAll(fold, Before(turns, n), turns, n)
    ensures TellsAll(fold, Before(turns, next), turns, next)
  {
    forall ip | ip in Before(turns, next)
      ensures Tells(fold, Before(turns, next)[ip], NamesSince(turns, next, ip))
    {
      TurnTells(fold, maxEntries, ttl, turns, n, ip);
    }
  }

  lemma {:induction false} StoreTellsAll(fold: Fold, maxEntries: int, ttl: int, turns: seq<Turn>, n: nat)
    requires IsRun(fold, maxEntries, ttl, turns) && n <= |turns|
    ensures TellsAll(fold, Before(turns, n), turns, n)
  {
    if n == 0 {
    } else {
      StoreTellsAll(fold, maxEntries, ttl, turns, n - 1);
      TurnTellsAll(fold, maxEntries, ttl, turns, n - 1, n);
    }
  }

  /** In every run of Record calls from an empty store, over any addresses: the answer is
      the representative of the last maximal run of equivalent names before the current
      one, among the names recorded for the address since its record last survived
      pruning, or a dash; and the store stays within a positive limit. */
  lemma AnswersFollowTheRuns(fold: Fold, maxEntries: int, ttl: int, turns: seq<Turn>, i: nat)
    requires IsRun(fold, maxEntries, ttl, turns) && i < |turns| && turns[i].ip != ""
    ensures turns[i].answer == FormerName(Runs(fold, NamesInTurn(turns, i, turns[i].ip) + [turns[i].name]))
    ensures maxEntries > 0 ==> |turns[i].after| <= maxEntries
  {
    StoreTellsAll(fold, maxEntries, ttl, turns, i);
    TurnAnswers(fold, maxEntries, ttl, turns, i);
    assert StepAt(fold, maxEntries, ttl, turns, i);
  }

  ghost predicate ForwardClock(turns: seq<Turn>) {
    forall i, j :: 0 <= i < j < |turns| ==> turns[i].now <= turns[j].now
  }

  predicate SeenBy(records: map<string, AkaRecord>, now: int) {
    forall ip :: ip in records ==> records[ip].lastSeen <= now
  }

  lemma StepIsNotAhead(fold: Fold, maxEntries: int, ttl: int, before: map<string, AkaRecord>, t: Turn, now: int)
    requires RecordStep(fold, maxEntries, ttl, before, t) && SeenBy(before, now) && t.now <= now
    ensures SeenBy(t.after, now)
  {
    forall ip | ip in t.after
      ensures t.after[ip].lastSeen <= now
    {
      StepLeaves(fold, maxEntries, ttl, before, t, ip);
    }
  }

  lemma TurnIsNotAhead(fold: Fold, maxEntries: int, ttl: int, turns: seq<Turn>, n: nat, next: nat, now: int)
    requires IsRun(fold, maxEntries, ttl, turns) && n < |turns| && next == n + 1
    requires SeenBy(Before(turns, n), now) && turns[n].now <= now
    ensures SeenBy(Before(turns, next), now)
  {
    assert StepAt(fold, maxEntries, ttl, turns, n);
    StepIsNotAhead(fold, maxEntries, ttl, Before(turns, n), turns[n], now);
  }

  lemma {:induction false} NobodyIsAhead(fold: Fold, maxEntries: int, ttl: int, turns: seq<Turn>, n: nat, now: int)
    requires IsRun(fold, maxEntries, ttl, turns) && n <= |turns|
    requires forall i :: 0 <= i < n ==> turns[i].now <= now
    ensures SeenBy(Before(turns, n), now)
  {
    if n == 0 {
    } else {
      NobodyIsAhead(fold, maxEntries, ttl, turns, n - 1, now);
      TurnIsNotAhead(fold, maxEntries, ttl, turns, n - 1, n, now);
    }
  }

  /** When the first pruning of a call was at the limit, so is the store after it. */
  lemma StaysFull(records: map<string, AkaRecord>, after: map<string, AkaRecord>, maxEntries: int, ttl: int, now: int,
                  ip: string, r: AkaRecord)
    requires maxEntries > 0 && |records| == maxEntries && r.lastSeen == now
    requires forall k :: k in records ==> !Expired(records[k], ttl, now)
    requires PrunedTo(records[ip := r], after, maxEntries, ttl, now)
    ensures |after| == maxEntries
  {
    var all := records[ip := r];
    assert all.Keys == records.Keys + {ip};
    Sets.SubsetSize(records.Keys, all.Keys);
    if forall k :: k in all ==> k in after {
      assert after.Keys == all.Keys;
    }
  }

  /** One call that evicts the record it has just made. */
  lemma StepEvictsItsOwn(fold: Fold, maxEntries: int, ttl: int, before: map<string, AkaRecord>, t: Turn, left: string)
    requires RecordStep(fold, maxEntries, ttl, before, t) && SeenBy(before, t.now)
    requires t.ip != "" && t.ip !in t.after && left in t.after
    ensures t.after[left].lastSeen == t.now && |t.after| == maxEntries
  {
    StepLeaves(fold, maxEntries, ttl, before, t, left);
    var all := t.survivors[t.ip := Update(fold, Stored(t.survivors, t.ip), t.name, t.now).0];
    assert t.ip in all && all[t.ip].lastSeen == t.now && !Expired(all[t.ip], ttl, t.now);
  }

  /** One call that evicts an unexpired record. */
  lemma StepEvictsTheOldest(fold: Fold, maxEntries: int, ttl: int, before: map<string, AkaRecord>, t: Turn,
                            gone: string, left: string)
    requires RecordStep(fold, maxEntries, ttl, before, t) && SeenBy(before, t.now)
    requires gone in before && !Expired(before[gone], ttl, t.now)
    requires gone !in t.after && left in t.after
    ensures before[gone].lastSeen <= t.after[left].lastSeen && |t.after| == maxEntries
  {
    StepLeaves(fold, maxEntries, ttl, before, t, left);
    if t.ip != "" && gone == t.ip {
      StepEvictsItsOwn(fold, maxEntries, ttl, before, t, left);
    } else if gone !in t.survivors {
      StaysFull(t.survivors, t.after, maxEntries, ttl, t.now, t.ip,
                Update(fold, Stored(t.survivors, t.ip), t.name, t.now).0);
    }
  }

  /** In every run with a forward clock: an unexpired record that a call evicts in either
      of its prunings is no newer than any record the call leaves, and the store is then
      exactly full. */
  lemma EvictedAreOldest(fold: Fold, maxEntries: int, ttl: int, turns: seq<Turn>, i: nat, gone: string, left: string)
    requires IsRun(fold, maxEntries, ttl, turns) && ForwardClock(turns) && i < |turns|
    requires gone in Before(turns, i) && !Expired(Before(turns, i)[gone], ttl, turns[i].now)
    requires gone !in turns[i].after && left in turns[i].after
    ensures Before(turns, i)[gone].lastSeen <= turns[i].after[left].lastSeen
    ensures |turns[i].after| == maxEntries
  {
    NobodyIsAhead(fold, maxEntries, ttl, turns, i, turns[i].now);
    assert StepAt(fold, maxEntries, ttl, turns, i);
    StepEvictsTheOldest(fold, maxEntries, ttl, Before(turns, i), turns[i], gone, left);
  }

  /** A call evicts the record it has just made only from a full store whose records are
      all of its own instant. */
  lemma OwnRecordLosesOnlyTies(fold: Fold, maxEntries: int, ttl: int, turns: seq<Turn>, i: nat, left: string)
    requires IsRun(fold, maxEntries, ttl, turns) && ForwardClock(turns) && i < |turns|
    requires turns[i].ip != "" && turns[i].ip !in turns[i].after && left in turns[i].after
    ensures turns[i].after[left].lastSeen == turns[i].now
    ensures |turns[i].after| == maxEntries
  {
    NobodyIsAhead(fold, maxEntries, ttl, turns, i, turns[i].now);
    assert StepAt(fold, maxEntries, ttl, turns, i);
    StepEvictsItsOwn(fold, maxEntries, ttl, Before(turns, i), turns[i], left);
  }

  // ----- survival by times -------------------------------------------------------------------

  /** The last of the first n turns that names the address. */
  function LastTurn(turns: seq<Turn>, n: nat, ip: string): (r: Option<nat>)
    requires n <= |turns|
    ensures r.Some? ==> r.value < n && turns[r.value].ip == ip
    ensures forall k :: (if r.Some? then r.value + 1 else 0) <= k < n ==> turns[k].ip != ip
  {
    if n == 0 then None else if turns[n - 1].ip == ip then Some(n - 1) else LastTurn(turns, n - 1, ip)
  }

  /** A record last named at one instant may still be there at another. */
  predicate Lasts(ttl: int, named: int, now: int) {
    ttl <= 0 || now - named <= ttl
  }

  /** A store without the address that is full of records named no earlier. */
  ghost predicate FullOfNewer(records: map<string, AkaRecord>, maxEntries: int, ip: string, named: int) {
    && ip !in records && 0 < maxEntries == |records|
    && forall other :: other in records ==> named <= records[other].lastSeen
  }

  /** From turn m to the first pruning of turn n the limit evicts the address. */
  ghost predicate Pushed(maxEntries: int, turns: seq<Turn>, m: nat, n: nat, ip: string)
    requires m <= n < |turns|
  {
    exists j: nat :: m <= j <= n && PushedIn(maxEntries, turns, m, n, j, ip)
  }

  ghost predicate PushedIn(maxEntries: int, turns: seq<Turn>, m: nat, n: nat, j: nat, ip: string)
    requires m <= j <= n < |turns|
  {
    || (j < n && FullOfNewer(turns[j].after, maxEntries, ip, turns[m].now))
    || (m < j && FullOfNewer(turns[j].survivors, maxEntries, ip, turns[m].now))
  }

  /** What happens to the record of another address in one turn. */
  lemma OthersInTurn(fold: Fold, maxEntries: int, ttl: int, before: map<string, AkaRecord>, t: Turn, ip: string,
                     named: int)
    requires RecordStep(fold, maxEntries, ttl, before, t)
    requires ip != t.ip && ip in before && before[ip].lastSeen == named != 0
    requires Lasts(ttl, named, t.now)
    ensures ip in t.survivors || FullOfNewer(t.survivors, maxEntries, ip, named)
    ensures ip in t.survivors ==> ip in t.after || FullOfNewer(t.after, maxEntries, ip, named)
  {
  }

  /** A turn's own record is there at its end unless the limit takes it at once. */
  lemma OwnInTurn(fold: Fold, maxEntries: int, ttl: int, before: map<string, AkaRecord>, t: Turn)
    requires RecordStep(fold, maxEntries, ttl, before, t) && t.ip != ""
    ensures t.ip in t.after || FullOfNewer(t.after, maxEntries, t.ip, t.now)
    ensures t.ip in t.after ==> t.after[t.ip].lastSeen == t.now
  {
    var all := t.survivors[t.ip := Update(fold, Stored(t.survivors, t.ip), t.name, t.now).0];
    assert all[t.ip].lastSeen == t.now && !Expired(all[t.ip], ttl, t.now);
  }

  lemma LeavesAt(fold: Fold, maxEntries: int, ttl: int, turns: seq<Turn>, n: nat, ip: string)
    requires IsRun(fold, maxEntries, ttl, turns) && n < |turns| && ip in turns[n].after && ip != ""
    ensures ip == turns[n].ip ==> turns[n].after[ip].lastSeen == turns[n].now
    ensures ip != turns[n].ip ==>
              ip in turns[n].survivors && ip in Before(turns, n) && turns[n].after[ip] == Before(turns, n)[ip]
  {
    assert StepAt(fold, maxEntries, ttl, turns, n);
    StepLeaves(fold, maxEntries, ttl, Before(turns, n), turns[n], ip);
  }

  lemma OthersAt(fold: Fold, maxEntries: int, ttl: int, turns: seq<Turn>, n: nat, ip: string, named: int)
    requires IsRun(fold, maxEntries, ttl, turns) && n < |turns| && ip != turns[n].ip && named != 0
    requires ip in Before(turns, n) && Before(turns, n)[ip].lastSeen == named && Lasts(ttl, named, turns[n].now)
    ensures ip in turns[n].survivors || FullOfNewer(turns[n].survivors, maxEntries, ip, named)
    ensures ip in turns[n].survivors ==> ip in turns[n].after || FullOfNewer(turns[n].after, maxEntries, ip, named)
  {
    assert StepAt(fold, maxEntries, ttl, turns, n);
    OthersInTurn(fold, maxEntries, ttl, Before(turns, n), turns[n], ip, named);
  }

  lemma OwnAt(fold: Fold, maxEntries: int, ttl: int, turns: seq<Turn>, n: nat)
    requires IsRun(fold, maxEntries, ttl, turns) && n < |turns| && turns[n].ip != ""
    ensures turns[n].now != 0
    ensures turns[n].ip in turns[n].after || FullOfNewer(turns[n].after, maxEntries, turns[n].ip, turns[n].now)
    ensures turns[n].ip in turns[n].after ==> turns[n].after[turns[n].ip].lastSeen == turns[n].now
  {
    assert StepAt(fold, maxEntries, ttl, turns, n);
    OwnInTurn(fold, maxEntries, ttl, Before(turns, n), turns[n]);
  }

  /** What the first pruning of a turn leaves. */
  lemma SurvivorsAt(fold: Fold, maxEntries: int, ttl: int, turns: seq<Turn>, n: nat, ip: string, named: int)
    requires IsRun(fold, maxEntries, ttl, turns) && n < |turns| && turns[n].ip != "" && named != 0
    requires ip in Before(turns, n) ==> Before(turns, n)[ip].lastSeen == named
    ensures ip in turns[n].survivors ==> ip in Before(turns, n) && Lasts(ttl, named, turns[n].now)
    ensures ip in Before(turns, n) && Lasts(ttl, named, turns[n].now) ==>
              ip in turns[n].survivors || FullOfNewer(turns[n].survivors, maxEntries, ip, named)
  {
    assert StepAt(fold, maxEntries, ttl, turns, n);
  }

  /** What a stored record was last named by, and which names it goes back to. */
  lemma {:induction false} StoredSinceLastTurn(fold: Fold, maxEntries: int, ttl: int, turns: seq<Turn>, n: nat,
                                               ip: string)
    requires IsRun(fold, maxEntries, ttl, turns) && n <= |turns| && ip != "" && ip in Before(turns, n)
    ensures var m := LastTurn(turns, n, ip);
            && m.Some?
            && Before(turns, n)[ip].lastSeen == turns[m.value].now
            && NamesSince(turns, n, ip) == NamesInTurn(turns, m.value, ip) + [turns[m.value].name]
  {
    LeavesAt(fold, maxEntries, ttl, turns, n - 1, ip);
    NamesAfterTurn(turns, n - 1, ip);
    if turns[n - 1].ip != ip {
      StoredSinceLastTurn(fold, maxEntries, ttl, turns, n - 1, ip);
    }
  }

  /** The record is stored before turn k as turn m has left it. */
  predicate StillThere(turns: seq<Turn>, m: nat, k: nat, ip: string)
    requires m < |turns| && k <= |turns|
  {
    ip in Before(turns, k) && Before(turns, k)[ip].lastSeen == turns[m].now
  }

  lemma StaysOneTurn(fold: Fold, maxEntries: int, ttl: int, turns: seq<Turn>, m: nat, k: nat, n: nat, ip: string)
    requires IsRun(fold, maxEntries, ttl, turns) && m < k < n < |turns| && ip != "" && turns[k].ip != ip
    requires StillThere(turns, m, k, ip) && Lasts(ttl, turns[m].now, turns[k].now) && turns[m].now != 0
    ensures PushedIn(maxEntries, turns, m, n, k, ip) || StillThere(turns, m, k + 1, ip)
  {
    OthersAt(fold, maxEntries, ttl, turns, k, ip, turns[m].now);
    if ip in turns[k].after {
      LeavesAt(fold, maxEntries, ttl, turns, k, ip);
    }
  }

  /** Between two turns of an address its record stays as it is, or the limit evicts it. */
  lemma {:induction false} StaysOrIsPushed(fold: Fold, maxEntries: int, ttl: int, turns: seq<Turn>, m: nat, k: nat,
                                           n: nat)
    requires IsRun(fold, maxEntries, ttl, turns) && ForwardClock(turns) && m < k <= n < |turns| && turns[m].ip != ""
    requires forall j :: m < j < k ==> turns[j].ip != turns[m].ip
    requires Lasts(ttl, turns[m].now, turns[n].now)
    ensures Pushed(maxEntries, turns, m, n, turns[m].ip) || StillThere(turns, m, k, turns[m].ip)
  {
    var ip := turns[m].ip;
    OwnAt(fold, maxEntries, ttl, turns, m);
    if k == m + 1 {
      assert FullOfNewer(turns[m].after, maxEntries, ip, turns[m].now) ==> PushedIn(maxEntries, turns, m, n, m, ip);
    } else {
      StaysOrIsPushed(fold, maxEntries, ttl, turns, m, k - 1, n);
      if StillThere(turns, m, k - 1, ip) {
        StaysOneTurn(fold, maxEntries, ttl, turns, m, k - 1, n, ip);
      }
    }
  }

  /** An address that is missing stays so until it is named. */
  lemma {:induction false} MissingStaysMissing(fold: Fold, maxEntries: int, ttl: int, turns: seq<Turn>, j: nat, k: nat,
                                               ip: string)
    requires IsRun(fold, maxEntries, ttl, turns) && j <= k <= |turns| && ip != "" && ip !in Before(turns, j)
    requires forall i :: j <= i < k ==> turns[i].ip != ip
    ensures ip !in Before(turns, k)
    decreases k
  {
    if k == j {
    } else {
      MissingStaysMissing(fold, maxEntries, ttl, turns, j, k - 1, ip);
      if ip in turns[k - 1].after {
        LeavesAt(fold, maxEntries, ttl, turns, k - 1, ip);
      }
    }
  }

  lemma NotBeforeNotSurviving(fold: Fold, maxEntries: int, ttl: int, turns: seq<Turn>, n: nat, ip: string)
    requires IsRun(fold, maxEntries, ttl, turns) && n < |turns| && ip !in Before(turns, n)
    ensures ip !in turns[n].survivors
  {
    assert StepAt(fold, maxEntries, ttl, turns, n);
  }

  lemma PushedBefore(fold: Fold, maxEntries: int, ttl: int, turns: seq<Turn>, j: nat, n: nat, ip: string)
    requires IsRun(fold, maxEntries, ttl, turns) && j < n < |turns| && ip != "" && ip !in turns[j].after
    requires forall i :: j < i < n ==> turns[i].ip != ip
    ensures ip !in turns[n].survivors
  {
    MissingStaysMissing(fold, maxEntries, ttl, turns, j + 1, n, ip);
    NotBeforeNotSurviving(fold, maxEntries, ttl, turns, n, ip);
  }

  lemma PushedIsMissing(fold: Fold, maxEntries: int, ttl: int, turns: seq<Turn>, m: nat, n: nat, j: nat, ip: string)
    requires IsRun(fold, maxEntries, ttl, turns) && m <= j <= n < |turns| && ip != ""
    requires forall i :: m < i < n ==> turns[i].ip != ip
    requires PushedIn(maxEntries, turns, m, n, j, ip)
    ensures ip !in turns[n].survivors
  {
    if j < n {
      if !FullOfNewer(turns[j].after, maxEntries, ip, turns[m].now) && ip in turns[j].after {
        LeavesAt(fold, maxEntries, ttl, turns, j, ip);
      }
      PushedBefore(fold, maxEntries, ttl, turns, j, n, ip);
    }
  }

  /** The first pruning of a turn finds the record of an address, last named in turn m,
      exactly when no more than the time to live has passed since and the limit has not
      evicted it. */
  lemma SurvivesExactly(fold: Fold, maxEntries: int, ttl: int, turns: seq<Turn>, m: nat, n: nat)
    requires IsRun(fold, maxEntries, ttl, turns) && ForwardClock(turns) && n < |turns|
    requires turns[n].ip != "" && LastTurn(turns, n, turns[n].ip) == Some(m)
    ensures turns[n].ip in turns[n].survivors <==>
            Lasts(ttl, turns[m].now, turns[n].now) && !Pushed(maxEntries, turns, m, n, turns[n].ip)
  {
    var ip := turns[n].ip;
    OwnAt(fold, maxEntries, ttl, turns, m);
    if ip in Before(turns, n) {
      StoredSinceLastTurn(fold, maxEntries, ttl, turns, n, ip);
    }
    SurvivorsAt(fold, maxEntries, ttl, turns, n, ip, turns[m].now);
    assert !Pushed(maxEntries, turns, m, n, ip) ==> !PushedIn(maxEntries, turns, m, n, n, ip);
    if Pushed(maxEntries, turns, m, n, ip) {
      var j: nat :| m <= j <= n && PushedIn(maxEntries, turns, m, n, j, ip);
      PushedIsMissing(fold, maxEntries, ttl, turns, m, n, j, ip);
    } else if Lasts(ttl, turns[m].now, turns[n].now) {
      StaysOrIsPushed(fold, maxEntries, ttl, turns, m, n, n);
    }
  }

  /** The names an address still has at an instant, by the turns that named it: they go
      back as long as neighbouring ones are no further apart than the time to live and
      the limit did not evict the address in between. */
  ghost function NamesByTimes(maxEntries: int, ttl: int, turns: seq<Turn>, n: nat, ip: string): seq<string>
    requires n < |turns|
  {
    match LastTurn(turns, n, ip)
    case None => []
    case Some(m) =>
      if Lasts(ttl, turns[m].now, turns[n].now) && !Pushed(maxEntries, turns, m, n, ip)
      then NamesByTimes(maxEntries, ttl, turns, m, ip) + [turns[m].name]
      else []
  }

  lemma {:induction false} TimesTellTheNames(fold: Fold, maxEntries: int, ttl: int, turns: seq<Turn>, n: nat,
                                             ip: string)
    requires IsRun(fold, maxEntries, ttl, turns) && ForwardClock(turns)
    requires n < |turns| && turns[n].ip == ip != ""
    ensures NamesInTurn(turns, n, ip) == NamesByTimes(maxEntries, ttl, turns, n, ip)
    decreases n
  {
    match LastTurn(turns, n, ip) {
      case None =>
        if ip in Before(turns, n) {
          StoredSinceLastTurn(fold, maxEntries, ttl, turns, n, ip);
        } else {
          NotBeforeNotSurviving(fold, maxEntries, ttl, turns, n, ip);
        }
      case Some(m) =>
        SurvivesExactly(fold, maxEntries, ttl, turns, m, n);
        if ip in turns[n].survivors {
          if ip !in Before(turns, n) {
            NotBeforeNotSurviving(fold, maxEntries, ttl, turns, n, ip);
          }
          StoredSinceLastTurn(fold, maxEntries, ttl, turns, n, ip);
          TimesTellTheNames(fold, maxEntries, ttl, turns, m, ip);
        }
    }
  }

  /** The answer of every call of every run with a forward clock, by times alone. */
  lemma AnswersByTimes(fold: Fold, maxEntries: int, ttl: int, turns: seq<Turn>, n: nat)
    requires IsRun(fold, maxEntries, ttl, turns) && ForwardClock(turns) && n < |turns| && turns[n].ip != ""
    ensures var names := NamesByTimes(maxEntries, ttl, turns, n, turns[n].ip) + [turns[n].name];
            var runs := Runs(fold, names);
            turns[n].answer == if |runs| == 1 then "-" else runs[|runs| - 2]
  {
    AnswersFollowTheRuns(fold, maxEntries, ttl, turns, n);
    TimesTellTheNames(fold, maxEntries, ttl, turns, n, turns[n].ip);
  }

  /** The addresses named in the first n turns. */
  function Addresses(turns: seq<Turn>, n: nat): set<string>
    requires n <= |turns|
  {
    set i: nat | i < n :: turns[i].ip
  }

  lemma {:induction false} StoredWereNamed(fold: Fold, maxEntries: int, ttl: int, turns: seq<Turn>, n: nat)
    requires IsRun(fold, maxEntries, ttl, turns) && n <= |turns|
    ensures Before(turns, n).Keys <= Addresses(turns, n)
  {
    if n == 0 {
    } else {
      StoredWereNamed(fold, maxEntries, ttl, turns, n - 1);
      forall ip | ip in turns[n - 1].after
        ensures ip in Addresses(turns, n)
      {
        if ip != turns[n - 1].ip {
          assert StepAt(fold, maxEntries, ttl, turns, n - 1);
          StepLeaves(fold, maxEntries, ttl, Before(turns, n - 1), turns[n - 1], ip);
        }
      }
    }
  }

  /** The limit evicts nobody while no more addresses were named than it allows. */
  lemma FewAreNeverPushed(fold: Fold, maxEntries: int, ttl: int, turns: seq<Turn>, m: nat, n: nat)
    requires IsRun(fold, maxEntries, ttl, turns) && m <= n < |turns|
    requires maxEntries <= 0 || |Addresses(turns, n + 1)| <= maxEntries
    ensures !Pushed(maxEntries, turns, m, n, turns[m].ip)
  {
    if Pushed(maxEntries, turns, m, n, turns[m].ip) {
      var all, ip := Addresses(turns, n + 1), turns[m].ip;
      var j: nat :| m <= j <= n && PushedIn(maxEntries, turns, m, n, j, ip);
      if j < n && FullOfNewer(turns[j].after, maxEntries, ip, turns[m].now) {
        StoredWereNamed(fold, maxEntries, ttl, turns, j + 1);
        FullHasRoom(turns[j].after, maxEntries, ip, turns[m].now, all);
      } else {
        StoredWereNamed(fold, maxEntries, ttl, turns, j);
        assert StepAt(fold, maxEntries, ttl, turns, j);
        FullHasRoom(turns[j].survivors, maxEntries, ip, turns[m].now, all);
      }
    }
  }

  lemma FullHasRoom(records: map<string, AkaRecord>, maxEntries: int, ip: string, named: int, all: set<string>)
    requires FullOfNewer(records, maxEntries, ip, named) && ip in all && records.Keys <= all
    ensures maxEntries < |all|
  {
    Sets.SubsetSize(records.Keys, all - {ip});
  }

  /** The turn that began the record which turn m goes on with. */
  ghost function FirstByTimes(maxEntries: int, ttl: int, turns: seq<Turn>, m: nat): (r: nat)
    requires m < |turns|
    ensures r <= m
  {
    match LastTurn(turns, m, turns[m].ip)
    case None => m
    case Some(k) =>
      if Lasts(ttl, turns[k].now, turns[m].now) && !Pushed(maxEntries, turns, k, m, turns[m].ip)
      then FirstByTimes(maxEntries, ttl, turns, k)
      else m
  }

  /** The dates of the record a turn leaves for its address. */
  lemma OwnDates(fold: Fold, maxEntries: int, ttl: int, turns: seq<Turn>, n: nat)
    requires IsRun(fold, maxEntries, ttl, turns) && n < |turns| && turns[n].ip != "" && turns[n].ip in turns[n].after
    ensures var t := turns[n];
            && t.after[t.ip].lastSeen == t.now
            && (t.ip !in t.survivors ==> t.after[t.ip].firstSeen == t.now)
            && (t.ip in t.survivors ==>
                  && t.ip in Before(turns, n)
                  && (Before(turns, n)[t.ip].firstSeen != 0 ==>
                        t.after[t.ip].firstSeen == Before(turns, n)[t.ip].firstSeen))
  {
    assert StepAt(fold, maxEntries, ttl, turns, n);
    StepLeaves(fold, maxEntries, ttl, Before(turns, n), turns[n], turns[n].ip);
  }

  lemma {:induction false} DatesByTimes(fold: Fold, maxEntries: int, ttl: int, turns: seq<Turn>, n: nat, ip: string)
    requires IsRun(fold, maxEntries, ttl, turns) && ForwardClock(turns)
    requires n <= |turns| && ip != "" && ip in Before(turns, n)
    ensures var m := LastTurn(turns, n, ip);
            && m.Some?
            && Before(turns, n)[ip].lastSeen == turns[m.value].now
            && Before(turns, n)[ip].firstSeen == turns[FirstByTimes(maxEntries, ttl, turns, m.value)].now != 0
  {
    var k := n - 1;
    if turns[k].ip == ip {
      OwnAt(fold, maxEntries, ttl, turns, k);
      OwnDates(fold, maxEntries, ttl, turns, k);
      if ip in turns[k].survivors {
        DatesByTimes(fold, maxEntries, ttl, turns, k, ip);
      }
      match LastTurn(turns, k, ip) {
        case None =>
        case Some(m) => SurvivesExactly(fold, maxEntries, ttl, turns, m, k);
      }
    } else {
      LeavesAt(fold, maxEntries, ttl, turns, k, ip);
      DatesByTimes(fold, maxEntries, ttl, turns, k, ip);
    }
  }

  /** A call with an address leaves no record that was last named longer ago than the
      time to live. */
  lemma NothingStaleIsLeft(fold: Fold, maxEntries: int, ttl: int, turns: seq<Turn>, n: nat, ip: string)
    requires IsRun(fold, maxEntries, ttl, turns) && n < |turns| && turns[n].ip != "" && ip in turns[n].after && ip != ""
    ensures LastTurn(turns, n + 1, ip).Some?
    ensures Lasts(ttl, turns[LastTurn(turns, n + 1, ip).value].now, turns[n].now)
  {
    StoredSinceLastTurn(fold, maxEntries, ttl, turns, n + 1, ip);
    var m := LastTurn(turns, n + 1, ip).value;
    OwnAt(fold, maxEntries, ttl, turns, n);
    if m < n {
      OwnAt(fold, maxEntries, ttl, turns, m);
      LeavesAt(fold, maxEntries, ttl, turns, n, ip);
      SurvivorsAt(fold, maxEntries, ttl, turns, n, ip, turns[m].now);
    }
  }

  /** Every stored record of every run with a forward clock, by times alone. */
  lemma RecordsByTimes(fold: Fold, maxEntries: int, ttl: int, turns: seq<Turn>, n: nat, ip: string)
    requires IsRun(fold, maxEntries, ttl, turns) && ForwardClock(turns)
    requires n <= |turns| && ip != "" && ip in Before(turns, n)
    ensures LastTurn(turns, n, ip).Some?
    ensures var m, r := LastTurn(turns, n, ip).value, Before(turns, n)[ip];
            var names := NamesByTimes(maxEntries, ttl, turns, m, ip) + [turns[m].name];
            && r.lastSeen == turns[m].now
            && r.firstSeen == turns[FirstByTimes(maxEntries, ttl, turns, m)].now
            && Tells(fold, r, names)
  {
    DatesByTimes(fold, maxEntries, ttl, turns, n, ip);
    StoredSinceLastTurn(fold, maxEntries, ttl, turns, n, ip);
    TimesTellTheNames(fold, maxEntries, ttl, turns, LastTurn(turns, n, ip).value, ip);
    StoreTellsAll(fold, maxEntries, ttl, turns, n);
  }
}
