/** The per-provider request gate of internal/antivpn/providers.go. Instants and
    intervals are integers; each Wait samples the clock twice under its lock. */
module Gate {
  import opened Sets

  datatype Outcome = Proceed(at: int) | Cancelled

  /** The instant one critical section reserves: the clock is read at `sampled`
      to compute the wait and again at `stamped` to store the reservation. */
  function Reserve(last: int, minInterval: int, sampled: int, stamped: int): int {
    var waitFor := last + minInterval - sampled;
    stamped + if waitFor < 0 then 0 else waitFor
  }

  predicate Spaced(rs: seq<int>, minInterval: int) {
    forall i :: 0 <= i < |rs| - 1 ==> rs[i] + minInterval <= rs[i + 1]
  }

  class ProviderGate {
    const minInterval: int
    var lastRequest: int
    ghost var reservations: seq<int>

    ghost predicate Valid()
      reads this
    {
      && Spaced(reservations, minInterval)
      && (reservations != [] ==> lastRequest == reservations[|reservations| - 1])
    }

    constructor (minInterval: int, zeroTime: int)
      ensures Valid() && this.minInterval == minInterval
      ensures lastRequest == zeroTime && reservations == []
    {
      this.minInterval := minInterval;
      lastRequest := zeroTime;
      reservations := [];
    }

    /** A cancelled waiter keeps its reservation. Nobody proceeds before the
        reserved instant. */
    method Wait(sampled: int, stamped: int, cancelledFirst: bool) returns (outcome: Outcome)
      requires Valid() && sampled <= stamped
      modifies this
      ensures Valid()
      ensures minInterval <= 0 ==>
                reservations == old(reservations) && lastRequest == old(lastRequest) && outcome == Proceed(sampled)
      ensures minInterval > 0 ==>
                && lastRequest == Reserve(old(lastRequest), minInterval, sampled, stamped)
                && reservations == old(reservations) + [lastRequest]
                && stamped <= lastRequest
                && (old(lastRequest) + minInterval <= sampled ==> lastRequest == stamped)
                && (old(lastRequest) + minInterval > sampled ==>
                      lastRequest == old(lastRequest) + minInterval + (stamped - sampled))
                && (outcome.Proceed? ==> outcome.at == lastRequest)
                && (outcome.Cancelled? ==> cancelledFirst && lastRequest > stamped)
    {
      if minInterval <= 0 {
        return Proceed(sampled);
      }
      var waitFor := lastRequest + minInterval - sampled;
      if waitFor < 0 {
        waitFor := 0;
      }
      lastRequest := stamped + waitFor;
      reservations := reservations + [lastRequest];
      if waitFor == 0 {
        return Proceed(stamped);
      }
      if cancelledFirst {
        return Cancelled;
      }
      return Proceed(stamped + waitFor);
    }
  }

  // ----- whole runs ----------------------------------------------------------

  datatype Sampling = Sampling(sampled: int, stamped: int)

  /** The reservations of any sequence of critical sections. */
  function Run(last: int, minInterval: int, waits: seq<Sampling>): seq<int>
    decreases |waits|
  {
    if waits == [] then []
    else
      var r := Reserve(last, minInterval, waits[0].sampled, waits[0].stamped);
      [r] + Run(r, minInterval, waits[1..])
  }

  /** However the waiters interleave, and whatever the two clock readings of each
      are, reserved instants stay minInterval apart. */
  lemma {:induction false} RunIsSpaced(last: int, minInterval: int, waits: seq<Sampling>)
    requires forall w :: w in waits ==> w.sampled <= w.stamped
    ensures Spaced(Run(last, minInterval, waits), minInterval)
    ensures waits != [] ==> last + minInterval <= Run(last, minInterval, waits)[0]
    decreases |waits|
  {
    if waits == [] {
    } else {
      assert waits[0] in waits;
      var r := Reserve(last, minInterval, waits[0].sampled, waits[0].stamped);
      RunIsSpaced(r, minInterval, waits[1..]);
    }
  }

  /** The time between the two clock readings, over several critical sections. */
  function Drift(waits: seq<Sampling>): int {
    if waits == [] then 0 else waits[0].stamped - waits[0].sampled + Drift(waits[1..])
  }

  /** Waiter i is served as it comes, or queues up behind waiter j that was served as it
      came. */
  ghost predicate QueuesBehind(rs: seq<int>, minInterval: int, waits: seq<Sampling>, j: nat, i: nat)
    requires j <= i < |waits| == |rs|
  {
    && rs[j] == waits[j].stamped
    && rs[i] == rs[j] + (i - j) * minInterval + Drift(waits[j + 1..i + 1])
  }

  lemma QueuesInTail(rs: seq<int>, m: int, waits: seq<Sampling>, j: nat, i: nat)
    requires 0 < |waits| == |rs| && j <= i < |waits| - 1 && QueuesBehind(rs[1..], m, waits[1..], j, i)
    ensures QueuesBehind(rs, m, waits, j + 1, i + 1)
  {
    assert waits[1..][j + 1..i + 1] == waits[j + 2..i + 2];
  }

  /** No reservation is later than the gate demands: every one is that of a waiter served
      as it came, or of the gate's last request, and one interval for each waiter since,
      with the time between the clock readings. */
  lemma {:induction false} NoLaterThanNeeded(last: int, m: int, waits: seq<Sampling>, i: nat)
    requires i < |waits|
    ensures |Run(last, m, waits)| == |waits|
    ensures var rs := Run(last, m, waits);
            || rs[i] == last + (i + 1) * m + Drift(waits[..i + 1])
            || exists j: nat :: j <= i && QueuesBehind(rs, m, waits, j, i)
    decreases |waits|
  {
    var r, rs := Reserve(last, m, waits[0].sampled, waits[0].stamped), Run(last, m, waits);
    RunLength(r, m, waits[1..]);
    assert waits[..i + 1][1..] == waits[1..][..i];
    if i == 0 {
      assert waits[1..1] == [] && waits[1..][..0] == [];
      assert r == waits[0].stamped ==> QueuesBehind(rs, m, waits, 0, 0);
    } else {
      NoLaterThanNeeded(r, m, waits[1..], i - 1);
      var tail, later, k := rs[1..], waits[1..], i - 1;
      assert tail == Run(r, m, later);
      if j: nat :| j <= k && QueuesBehind(tail, m, later, j, k) {
        QueuesInTail(rs, m, waits, j, i - 1);
      } else {
        assert waits[1..][..i] == waits[1..i + 1];
        assert (i + 1) * m == i * m + m;
        assert r == waits[0].stamped ==> QueuesBehind(rs, m, waits, 0, i);
      }
    }
  }

  lemma {:induction false} RunLength(last: int, m: int, waits: seq<Sampling>)
    ensures |Run(last, m, waits)| == |waits|
    decreases |waits|
  {
    if waits == [] {
    } else {
      RunLength(Reserve(last, m, waits[0].sampled, waits[0].stamped), m, waits[1..]);
    }
  }

  lemma {:induction false} SpacedFar(rs: seq<int>, m: int, i: nat, j: nat)
    requires Spaced(rs, m) && i <= j < |rs|
    ensures rs[i] + (j - i) * m <= rs[j]
    decreases j - i
  {
    if i == j {
    } else {
      SpacedFar(rs, m, i, j - 1);
      assert (j - i) * m == (j - 1 - i) * m + m;
    }
  }

  function InWindow(rs: seq<int>, from: int, length: int): set<int> {
    set i | 0 <= i < |rs| && from <= rs[i] < from + length
  }

  /** Any half-open window of length k * minInterval holds at most k reservations,
      cancelled waiters included. */
  lemma AtMostKPerWindow(rs: seq<int>, m: int, k: nat, from: int)
    requires m > 0 && Spaced(rs, m)
    ensures |InWindow(rs, from, k * m)| <= k
  {
    var window := InWindow(rs, from, k * m);
    if window != {} {
      var first := Least(window);
      forall j | j in window
        ensures first <= j < first + k
      {
        SpacedFar(rs, m, first, j);
        if j - first >= k {
          MulMono(k, j - first, m);
          assert false;
        }
      }
      assert window <= Range(first, k);
      SubsetSize(window, Range(first, k));
    }
  }

  lemma MulMono(a: int, b: int, m: int)
    requires a <= b && m > 0
    ensures a * m <= b * m
  {
  }

  /** The bound is met: waiters who all arrive at once fill every window. */
  lemma {:induction false} BurstFillsWindows(last: int, m: int, now: int, n: nat)
    requires m > 0 && last + m <= now
    ensures var rs := Run(last, m, seq(n, _ => Sampling(now, now)));
            && |rs| == n && (forall i :: 0 <= i < n ==> rs[i] == now + i * m)
            && |InWindow(rs, now, n * m)| == n
  {
    BurstRun(last, m, now, n, 0);
    var rs := Run(last, m, seq(n, _ => Sampling(now, now)));
    forall i | 0 <= i < n
      ensures now <= rs[i] < now + n * m
    {
      MulMono(0, i, m);
      MulMono(i + 1, n, m);
      assert (i + 1) * m == i * m + m;
    }
    assert InWindow(rs, now, n * m) == Range(0, n);
  }

  lemma {:induction false} BurstRun(last: int, m: int, now: int, n: nat, done: nat)
    requires m > 0
    requires if done == 0 then last + m <= now else last + m == now + done * m
    ensures var rs := Run(last, m, seq(n, _ => Sampling(now, now)));
            |rs| == n && forall i :: 0 <= i < n ==> rs[i] == now + (done + i) * m
    decreases n
  {
    var ws := seq(n, _ => Sampling(now, now));
    if n == 0 {
    } else {
      assert ws[1..] == seq(n - 1, _ => Sampling(now, now));
      assert done * m >= 0;
      var r := Reserve(last, m, now, now);
      assert r == now + done * m;
      assert r + m == now + (done + 1) * m;
      BurstRun(r, m, now, n - 1, done + 1);
      var rs := Run(last, m, ws);
      forall i | 0 <= i < n
        ensures rs[i] == now + (done + i) * m
      {
        if i > 0 {
          assert done + 1 + (i - 1) == done + i;
        }
      }
    }
  }
}
