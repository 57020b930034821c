/** The two self-pruning dedupe tables of internal/antivpn/supervisor.go: the
    connection-event table (markEvent) and the broadcast table (shouldBroadcast).
    Instants and intervals are milliseconds. */
module Dedupe {

  const MINUTE := 60000
  const EVENT_HORIZON := 5 * MINUTE
  const BROADCAST_HORIZON := 10 * MINUTE

  /** One call: mark a key at an instant, or drop the key's entry. */
  datatype Op<K> = Mark(key: K, now: int) | Forget(key: K)

  function Prune<K>(t: map<K, int>, now: int, horizon: int): map<K, int> {
    map k | k in t && now - t[k] <= horizon :: t[k]
  }

  /** Prune, answer, and remember the instant only if the mark is accepted. */
  function MarkStep<K>(t: map<K, int>, key: K, now: int, interval: int, horizon: int): (map<K, int>, bool) {
    var kept := Prune(t, now, horizon);
    if key in kept && now - kept[key] < interval then (kept, false) else (kept[key := now], true)
  }

  /** The reference: a table that never forgets on its own. */
  function MarkForever<K>(t: map<K, int>, key: K, now: int, interval: int): (map<K, int>, bool) {
    if key in t && now - t[key] < interval then (t, false) else (t[key := now], true)
  }

  class DedupeTable<K(==)> {
    const horizon: int
    var seen: map<K, int>

    constructor (horizon: int)
      ensures this.horizon == horizon && seen == map[]
    {
      this.horizon := horizon;
      seen := map[];
    }

    /** The critical section of markEvent and shouldBroadcast. */
    method MarkKey(key: K, now: int, interval: int) returns (accepted: bool)
      modifies this
      ensures seen == MarkStep(old(seen), key, now, interval, horizon).0
      ensures accepted == MarkStep(old(seen), key, now, interval, horizon).1
    {
      var todo := seen.Keys;
      while todo != {}
        invariant todo <= seen.Keys
        invariant forall k :: k in seen ==> k in old(seen) && seen[k] == old(seen)[k]
        invariant forall k :: k in seen && k !in todo ==> now - seen[k] <= horizon
        invariant forall k :: k in old(seen) && k !in seen ==> now - old(seen)[k] > horizon
        decreases todo
      {
        var current :| current in todo;
        todo := todo - {current};
        if now - seen[current] > horizon {
          seen := seen - {current};
        }
      }
      assert seen == Prune(old(seen), now, horizon);
      if key in seen && now - seen[key] < interval {
        return false;
      }
      seen := seen[key := now];
      return true;
    }

    method ForgetKey(key: K)
      modifies this
      ensures seen == old(seen) - {key}
    {
      seen := seen - {key};
    }
  }

  // ----- whole traces ---------------------------------------------------------

  function Table<K>(ops: seq<Op<K>>, interval: int, horizon: int): map<K, int> {
    if ops == [] then map[]
    else
      var t := Table(ops[..|ops| - 1], interval, horizon);
      match ops[|ops| - 1]
      case Mark(key, now) => MarkStep(t, key, now, interval, horizon).0
      case Forget(key) => t - {key}
  }

  function FullTable<K>(ops: seq<Op<K>>, interval: int): map<K, int> {
    if ops == [] then map[]
    else
      var t := FullTable(ops[..|ops| - 1], interval);
      match ops[|ops| - 1]
      case Mark(key, now) => MarkForever(t, key, now, interval).0
      case Forget(key) => t - {key}
  }

  ghost predicate Accepts<K>(ops: seq<Op<K>>, i: nat, interval: int, horizon: int)
    requires i < |ops|
  {
    ops[i].Mark? && MarkStep(Table(ops[..i], interval, horizon), ops[i].key, ops[i].now, interval, horizon).1
  }

  ghost predicate AcceptsForever<K>(ops: seq<Op<K>>, i: nat, interval: int)
    requires i < |ops|
  {
    ops[i].Mark? && MarkForever(FullTable(ops[..i], interval), ops[i].key, ops[i].now, interval).1
  }

  predicate Ordered<K>(ops: seq<Op<K>>) {
    forall i, j :: 0 <= i < j < |ops| && ops[i].Mark? && ops[j].Mark? ==> ops[i].now <= ops[j].now
  }

  predicate NotBefore<K>(ops: seq<Op<K>>, now: int) {
    forall i :: 0 <= i < |ops| && ops[i].Mark? ==> ops[i].now <= now
  }

  /** t is full without some entries that are out of the horizon at now. */
  ghost predicate Lacks<K>(t: map<K, int>, full: map<K, int>, now: int, horizon: int) {
    && (forall k :: k in t ==> k in full && full[k] == t[k])
    && (forall k :: k in full && k !in t ==> now - full[k] > horizon)
  }

  lemma MarkAgrees<K>(t: map<K, int>, full: map<K, int>, key: K, now: int, interval: int, horizon: int)
    requires Lacks(t, full, now, horizon) && interval <= horizon + 1
    ensures MarkStep(t, key, now, interval, horizon).1 == MarkForever(full, key, now, interval).1
    ensures Lacks(MarkStep(t, key, now, interval, horizon).0, MarkForever(full, key, now, interval).0, now, horizon)
  {
    var kept := Prune(t, now, horizon);
    assert key in full && key !in kept ==> now - full[key] > horizon;
    assert Lacks(kept, full, now, horizon);
  }

  /** What the pruned table lacks of the full one is out of every later window. */
  lemma {:induction false} PrunedEntriesAreOld<K>(ops: seq<Op<K>>, interval: int, horizon: int, now: int)
    requires Ordered(ops) && NotBefore(ops, now) && interval <= horizon + 1
    ensures Lacks(Table(ops, interval, horizon), FullTable(ops, interval), now, horizon)
  {
    if ops == [] {
    } else {
      var n := |ops| - 1;
      match ops[n] {
        case Mark(key, at) =>
          assert ops[n].now == at <= now;
          PrunedEntriesAreOld(ops[..n], interval, horizon, at);
          MarkAgrees(Table(ops[..n], interval, horizon), FullTable(ops[..n], interval), key, at, interval, horizon);
        case Forget(key) =>
          PrunedEntriesAreOld(ops[..n], interval, horizon, now);
      }
    }
  }

  /** For intervals up to the horizon, and one tick more, every answer is the one of
      the table that never forgets. */
  lemma PruningIsInvisible<K>(ops: seq<Op<K>>, i: nat, interval: int, horizon: int)
    requires Ordered(ops) && interval <= horizon + 1 && i < |ops|
    ensures Accepts(ops, i, interval, horizon) <==> AcceptsForever(ops, i, interval)
  {
    if ops[i].Mark? {
      PrunedEntriesAreOld(ops[..i], interval, horizon, ops[i].now);
      MarkAgrees(Table(ops[..i], interval, horizon), FullTable(ops[..i], interval), ops[i].key, ops[i].now,
        interval, horizon);
    }
  }

  /** Op k is an accepted mark of the key, and the key is not dropped since. */
  ghost predicate Holds<K>(ops: seq<Op<K>>, k: nat, key: K, interval: int, horizon: int)
    requires k < |ops|
  {
    && Accepts(ops, k, interval, horizon)
    && ops[k].key == key
    && Op<K>.Forget(key) !in ops[k + 1..]
  }

  lemma AcceptsPrefix<K>(ops: seq<Op<K>>, n: nat, k: nat, interval: int, horizon: int)
    requires k < n <= |ops|
    ensures Accepts(ops[..n], k, interval, horizon) <==> Accepts(ops, k, interval, horizon)
  {
    assert ops[..n][..k] == ops[..k];
  }

  /** Every entry of the table is the instant of an accepted mark of that key that
      has not been dropped since: a rejected mark leaves no trace. */
  lemma {:induction false} EntriesAreAccepted<K>(ops: seq<Op<K>>, key: K, interval: int, horizon: int)
    requires key in Table(ops, interval, horizon)
    ensures exists k: nat :: k < |ops| && Holds(ops, k, key, interval, horizon)
                             && ops[k].now == Table(ops, interval, horizon)[key]
  {
    var n := |ops| - 1;
    var front := ops[..n];
    if Accepts(ops, n, interval, horizon) && ops[n].key == key {
      assert Holds(ops, n, key, interval, horizon);
    } else {
      EntriesAreAccepted(front, key, interval, horizon);
      var k: nat :| k < |front| && Holds(front, k, key, interval, horizon)
                    && front[k].now == Table(front, interval, horizon)[key];
      AcceptsPrefix(ops, n, k, interval, horizon);
      assert ops[k + 1..] == front[k + 1..] + [ops[n]];
      assert Holds(ops, k, key, interval, horizon);
    }
  }

  /** An accepted mark is remembered, or overtaken by a later accepted one, until
      it is dropped or falls behind the horizon. */
  lemma {:induction false} AcceptedIsRemembered<K>(ops: seq<Op<K>>, k: nat, interval: int, horizon: int, now: int)
    requires Ordered(ops) && NotBefore(ops, now)
    requires k < |ops| && ops[k].Mark? && Holds(ops, k, ops[k].key, interval, horizon)
    ensures var t := Table(ops, interval, horizon);
            if ops[k].key in t then ops[k].now <= t[ops[k].key] else now - ops[k].now > horizon
  {
    var n := |ops| - 1;
    if k < n {
      var front := ops[..n];
      AcceptsPrefix(ops, n, k, interval, horizon);
      assert ops[k + 1..] == front[k + 1..] + [ops[n]];
      assert Holds(front, k, ops[k].key, interval, horizon);
      AcceptedIsRemembered(front, k, interval, horizon, if ops[n].Mark? then ops[n].now else now);
      assert ops[n] in ops[k + 1..];
    }
  }

  /** For any interval, accepted marks of one key with no drop between them are at
      least min(interval, horizon) apart. */
  lemma AcceptedAreSpaced<K>(ops: seq<Op<K>>, i: nat, j: nat, interval: int, horizon: int)
    requires Ordered(ops) && i < j < |ops|
    requires ops[i].Mark? && ops[j].Mark? && ops[i].key == ops[j].key
    requires Accepts(ops, i, interval, horizon) && Accepts(ops, j, interval, horizon)
    requires Op<K>.Forget(ops[i].key) !in ops[i + 1..j]
    ensures ops[j].now - ops[i].now >= if interval <= horizon then interval else horizon
  {
    var front := ops[..j];
    AcceptsPrefix(ops, j, i, interval, horizon);
    assert front[i + 1..] == ops[i + 1..j];
    assert Holds(front, i, ops[i].key, interval, horizon);
    AcceptedIsRemembered(front, i, interval, horizon, ops[j].now);
  }

  /** For intervals up to the horizon a mark is rejected exactly when an accepted
      mark of the key, not dropped since, is less than the interval old. Rejected
      marks do not count, so they never extend the window. */
  lemma RejectedExactly<K>(ops: seq<Op<K>>, j: nat, interval: int, horizon: int)
    requires Ordered(ops) && interval <= horizon && j < |ops| && ops[j].Mark?
    ensures !Accepts(ops, j, interval, horizon) <==>
            exists i: nat :: i < j && Holds(ops[..j], i, ops[j].key, interval, horizon)
                             && ops[j].now - ops[i].now < interval
  {
    var front := ops[..j];
    var key := ops[j].key;
    if !Accepts(ops, j, interval, horizon) {
      EntriesAreAccepted(front, key, interval, horizon);
    }
    forall i: nat | i < j && Holds(front, i, key, interval, horizon) && ops[j].now - ops[i].now < interval
      ensures !Accepts(ops, j, interval, horizon)
    {
      AcceptedIsRemembered(front, i, interval, horizon, ops[j].now);
    }
  }

  /** Two marks of a key, the second just behind the horizon of the first. */
  function Straddling(horizon: nat): seq<Op<bool>> { [Mark(true, 0), Mark(true, horizon + 1)] }

  /** Past that the pruning shows: the second mark is accepted although the table that
      never forgets would reject it. */
  lemma PruningShowsPastTheHorizon(interval: int, horizon: nat)
    requires interval > horizon + 1
    ensures Ordered(Straddling(horizon))
    ensures Accepts(Straddling(horizon), 1, interval, horizon) && !AcceptsForever(Straddling(horizon), 1, interval)
  {
    var ops := Straddling(horizon);
    assert ops[..1] == [Mark(true, 0)] && ops[..1][..0] == [];
    assert Table(ops[..1], interval, horizon) == map[true := 0];
    assert FullTable(ops[..1], interval) == map[true := 0];
  }

  ghost predicate NeverShows(interval: int, horizon: int) {
    forall ops: seq<Op<bool>>, i: nat :: Ordered(ops) && i < |ops| ==>
      (Accepts(ops, i, interval, horizon) <==> AcceptsForever(ops, i, interval))
  }

  /** The pruning cannot be told from not forgetting, over all traces, exactly for
      these intervals. */
  lemma PruningIsInvisibleExactly(interval: int, horizon: nat)
    ensures NeverShows(interval, horizon) <==> interval <= horizon + 1
  {
    if interval <= horizon + 1 {
      forall ops: seq<Op<bool>>, i: nat | Ordered(ops) && i < |ops|
        ensures Accepts(ops, i, interval, horizon) <==> AcceptsForever(ops, i, interval)
      {
        PruningIsInvisible(ops, i, interval, horizon);
      }
    } else {
      PruningShowsPastTheHorizon(interval, horizon);
    }
  }

  // ----- the broadcast decision -------------------------------------------------

  datatype BroadcastMode = Off | BlockOnly | PassAndBlock | Unknown

  datatype Trigger = RealConnect | ReinitConnect | Userinfo

  /** shouldBroadcast: the mode decides first; without a cooldown, and for genuine
      connects, the table is neither read nor written. */
  class BroadcastGate {
    const mode: BroadcastMode
    const cooldown: int
    const table: DedupeTable<(string, string)>

    constructor (mode: BroadcastMode, cooldown: int)
      ensures this.mode == mode && this.cooldown == cooldown
      ensures fresh(table) && table.seen == map[] && table.horizon == 600000
    {
      this.mode, this.cooldown := mode, cooldown;
      table := new DedupeTable<(string, string)>(BROADCAST_HORIZON);
    }

    method ShouldBroadcast(ip: string, action: string, blocked: bool, trigger: Trigger, now: int) returns (yes: bool)
      requires table.horizon == 600000
      modifies table
      ensures var silent := mode == Off || mode == Unknown || (mode == BlockOnly && !blocked);
              if silent then !yes && table.seen == old(table.seen)
              else if cooldown <= 0 || trigger == RealConnect then yes && table.seen == old(table.seen)
              else (table.seen, yes) == MarkStep(old(table.seen), (ip, action), now, cooldown, 600000)
    {
      match mode {
        case Off => return false;
        case Unknown => return false;
        case BlockOnly => if !blocked { return false; }
        case PassAndBlock =>
      }
      if cooldown <= 0 || trigger == RealConnect {
        return true;
      }
      yes := table.MarkKey((ip, action), now, cooldown);
    }
  }
}
