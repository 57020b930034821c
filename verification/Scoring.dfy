/** Decision scoring of internal/antivpn/engine.go: the weighted sum over the
    providers' signals and the verdict drawn from it. */
module Scoring {

  datatype Mode = Off | LogOnly | Block

  datatype Signal = Signal(provider: string, strength: string, reason: string, weight: int)

  datatype ProviderResult = ProviderResult(provider: string, success: bool, error: string, signals: seq<Signal>)

  /** The sentence in a decision's summary. */
  datatype Summary =
    | NoUsableData
    | NoSignals
    | MetThreshold(score: int, threshold: int)
    | LogOnlyMetThreshold(score: int, threshold: int)
    | Remained(score: int, threshold: int, detail: string)

  datatype Decision = Decision(
    mode: Mode,
    threshold: int,
    providerCount: nat,
    allowed: bool,
    blocked: bool,
    wouldBlock: bool,
    score: int,
    reasons: seq<Signal>,
    providerSuccesses: int,
    detectingProviders: int,
    strongSignals: int,
    degraded: bool,
    summary: Summary)

  // ----- reference definitions: every tally is a total over the results -----

  function Total(f: ProviderResult -> int, rs: seq<ProviderResult>): int {
    if rs == [] then 0 else f(rs[0]) + Total(f, rs[1..])
  }

  function SumWeights(signals: seq<Signal>): int {
    if signals == [] then 0 else signals[0].weight + SumWeights(signals[1..])
  }

  function CountStrong(signals: seq<Signal>): nat {
    if signals == [] then 0 else (if signals[0].strength == "strong" then 1 else 0) + CountStrong(signals[1..])
  }

  function Weight(r: ProviderResult): int { SumWeights(r.signals) }
  function Strong(r: ProviderResult): int { CountStrong(r.signals) }
  function Usable(r: ProviderResult): int { if r.success then 1 else 0 }
  function Detecting(r: ProviderResult): int { if |r.signals| > 0 then 1 else 0 }

  function AllSignals(rs: seq<ProviderResult>): seq<Signal> {
    if rs == [] then [] else rs[0].signals + AllSignals(rs[1..])
  }

  predicate Confident(rs: seq<ProviderResult>) {
    Total(Strong, rs) > 0 || Total(Detecting, rs) >= 2
  }

  /** When the results speak for a block, whatever the mode. */
  predicate Condemned(threshold: int, rs: seq<ProviderResult>) {
    && Total(Usable, rs) > 0
    && Total(Detecting, rs) > 0
    && Total(Weight, rs) >= threshold
    && Confident(rs)
  }

  // ----- adding at the right end --------------------------------------------

  lemma {:induction false} TotalSnoc(f: ProviderResult -> int, rs: seq<ProviderResult>, r: ProviderResult)
    ensures Total(f, rs + [r]) == Total(f, rs) + f(r)
  {
    if rs == [] {
      assert rs + [r] == [r];
    } else {
      assert (rs + [r])[1..] == rs[1..] + [r];
      TotalSnoc(f, rs[1..], r);
    }
  }

  lemma {:induction false} SignalsSnoc(s: seq<Signal>, x: Signal)
    ensures SumWeights(s + [x]) == SumWeights(s) + x.weight
    ensures CountStrong(s + [x]) == CountStrong(s) + if x.strength == "strong" then 1 else 0
  {
    if s == [] {
      assert s + [x] == [x];
    } else {
      assert (s + [x])[1..] == s[1..] + [x];
      SignalsSnoc(s[1..], x);
    }
  }

  lemma {:induction false} AllSignalsSnoc(rs: seq<ProviderResult>, r: ProviderResult)
    ensures AllSignals(rs + [r]) == AllSignals(rs) + r.signals
  {
    if rs == [] {
      assert rs + [r] == [r];
    } else {
      assert (rs + [r])[1..] == rs[1..] + [r];
      AllSignalsSnoc(rs[1..], r);
    }
  }

  // ----- what the tallies count ---------------------------------------------

  function UsableAt(rs: seq<ProviderResult>): set<nat> { set i: nat | i < |rs| && rs[i].success }

  function DetectingAt(rs: seq<ProviderResult>): set<nat> { set i: nat | i < |rs| && rs[i].signals != [] }

  function StrongAt(signals: seq<Signal>): set<nat> {
    set i: nat | i < |signals| && signals[i].strength == "strong"
  }

  lemma StrongAtSnoc(signals: seq<Signal>, x: Signal)
    ensures |StrongAt(signals + [x])| == |StrongAt(signals)| + if x.strength == "strong" then 1 else 0
  {
    var last := if x.strength == "strong" then {|signals|} else {};
    assert StrongAt(signals + [x]) == StrongAt(signals) + last;
  }

  lemma {:induction false} StrongCounts(signals: seq<Signal>)
    ensures CountStrong(signals) == |StrongAt(signals)|
  {
    if signals == [] {
      assert StrongAt(signals) == {};
    } else {
      var n := |signals| - 1;
      StrongCounts(signals[..n]);
      assert signals == signals[..n] + [signals[n]];
      SignalsSnoc(signals[..n], signals[n]);
      StrongAtSnoc(signals[..n], signals[n]);
    }
  }

  lemma UsableAtSnoc(rs: seq<ProviderResult>, r: ProviderResult)
    ensures |UsableAt(rs + [r])| == |UsableAt(rs)| + if r.success then 1 else 0
  {
    var last := if r.success then {|rs|} else {};
    assert UsableAt(rs + [r]) == UsableAt(rs) + last;
  }

  lemma DetectingAtSnoc(rs: seq<ProviderResult>, r: ProviderResult)
    ensures |DetectingAt(rs + [r])| == |DetectingAt(rs)| + if r.signals != [] then 1 else 0
  {
    var last := if r.signals != [] then {|rs|} else {};
    assert DetectingAt(rs + [r]) == DetectingAt(rs) + last;
  }

  lemma {:induction false} UsableCount(rs: seq<ProviderResult>)
    ensures Total(Usable, rs) == |UsableAt(rs)|
  {
    if rs == [] {
      assert UsableAt(rs) == {};
    } else {
      var n := |rs| - 1;
      UsableCount(rs[..n]);
      assert rs == rs[..n] + [rs[n]];
      TotalSnoc(Usable, rs[..n], rs[n]);
      UsableAtSnoc(rs[..n], rs[n]);
    }
  }

  lemma {:induction false} DetectingCount(rs: seq<ProviderResult>)
    ensures Total(Detecting, rs) == |DetectingAt(rs)|
  {
    if rs == [] {
      assert DetectingAt(rs) == {};
    } else {
      var n := |rs| - 1;
      DetectingCount(rs[..n]);
      assert rs == rs[..n] + [rs[n]];
      TotalSnoc(Detecting, rs[..n], rs[n]);
      DetectingAtSnoc(rs[..n], rs[n]);
    }
  }

  lemma {:induction false} SignalsAppend(a: seq<Signal>, b: seq<Signal>)
    ensures SumWeights(a + b) == SumWeights(a) + SumWeights(b)
    ensures CountStrong(a + b) == CountStrong(a) + CountStrong(b)
  {
    if a == [] {
      assert a + b == b;
    } else {
      assert (a + b)[1..] == a[1..] + b;
      SignalsAppend(a[1..], b);
    }
  }

  lemma {:induction false} SignalsTotal(rs: seq<ProviderResult>)
    ensures Total(Weight, rs) == SumWeights(AllSignals(rs))
    ensures Total(Strong, rs) == CountStrong(AllSignals(rs))
  {
    if rs == [] {
    } else {
      SignalsTotal(rs[1..]);
      SignalsAppend(rs[0].signals, AllSignals(rs[1..]));
    }
  }

  /** The totals count the usable and the detecting results; over all their signals, they
      count the strong ones and add up the weights. */
  lemma TalliesCount(rs: seq<ProviderResult>)
    ensures Total(Usable, rs) == |UsableAt(rs)| && Total(Detecting, rs) == |DetectingAt(rs)|
    ensures Total(Strong, rs) == |StrongAt(AllSignals(rs))|
    ensures Total(Weight, rs) == SumWeights(AllSignals(rs))
  {
    UsableCount(rs);
    DetectingCount(rs);
    SignalsTotal(rs);
    StrongCounts(AllSignals(rs));
  }

  // ----- the program's loops ------------------------------------------------

  method Tally(results: seq<ProviderResult>)
    returns (score: int, reasons: seq<Signal>, successes: int, detecting: int, strong: int, degraded: bool)
    ensures score == Total(Weight, results)
    ensures reasons == AllSignals(results)
    ensures successes == Total(Usable, results)
    ensures detecting == Total(Detecting, results)
    ensures strong == Total(Strong, results)
    ensures degraded <==> exists r :: r in results && r.error != ""
  {
    score, reasons, successes, detecting, strong, degraded := 0, [], 0, 0, 0, false;
    for i := 0 to |results|
      invariant score == Total(Weight, results[..i])
      invariant reasons == AllSignals(results[..i])
      invariant successes == Total(Usable, results[..i])
      invariant detecting == Total(Detecting, results[..i])
      invariant strong == Total(Strong, results[..i])
      invariant degraded <==> exists k :: 0 <= k < i && results[k].error != ""
    {
      var result := results[i];
      assert results[..i + 1] == results[..i] + [result];
      TotalSnoc(Weight, results[..i], result);
      TotalSnoc(Usable, results[..i], result);
      TotalSnoc(Detecting, results[..i], result);
      TotalSnoc(Strong, results[..i], result);
      AllSignalsSnoc(results[..i], result);
      if result.success {
        successes := successes + 1;
      }
      if |result.signals| > 0 {
        detecting := detecting + 1;
      }
      if result.error != "" {
        degraded := true;
      }
      var sum, extra, marks := TallySignals(result.signals);
      score, reasons, strong := score + sum, reasons + extra, strong + marks;
    }
    assert results[..|results|] == results;
  }

  method TallySignals(signals: seq<Signal>) returns (sum: int, reasons: seq<Signal>, strong: int)
    ensures sum == SumWeights(signals) && reasons == signals && strong == CountStrong(signals)
  {
    sum, reasons, strong := 0, [], 0;
    for j := 0 to |signals|
      invariant sum == SumWeights(signals[..j])
      invariant reasons == signals[..j]
      invariant strong == CountStrong(signals[..j])
    {
      assert signals[..j + 1] == signals[..j] + [signals[j]];
      SignalsSnoc(signals[..j], signals[j]);
      sum, reasons := sum + signals[j].weight, reasons + [signals[j]];
      if signals[j].strength == "strong" {
        strong := strong + 1;
      }
    }
    assert signals[..|signals|] == signals;
  }

  /** EvaluateDecision: a block needs block mode, a usable provider, the
      threshold, and a strong signal or two detecting providers; nothing else
      blocks. */
  method EvaluateDecision(mode: Mode, threshold: int, results: seq<ProviderResult>) returns (d: Decision)
    ensures d.blocked <==> mode == Block && Condemned(threshold, results)
    ensures d.wouldBlock <==> Condemned(threshold, results)
    ensures d.allowed <==> !d.blocked
    ensures d.degraded <==> (exists r :: r in results && r.error != "") || Total(Usable, results) < |results|
    ensures d.score == Total(Weight, results) && d.reasons == AllSignals(results)
    ensures d.providerSuccesses == Total(Usable, results)
    ensures d.detectingProviders == Total(Detecting, results)
    ensures d.strongSignals == Total(Strong, results)
    ensures d.mode == mode && d.threshold == threshold && d.providerCount == |results|
    ensures d.summary.NoUsableData? <==> Total(Usable, results) == 0
    ensures d.summary.NoSignals? <==> Total(Usable, results) != 0 && Total(Detecting, results) == 0
    ensures d.summary.MetThreshold? <==> d.blocked
    ensures d.summary.LogOnlyMetThreshold? <==> mode == LogOnly && d.wouldBlock
    ensures d.wouldBlock <==>
            && d.providerSuccesses > 0 && d.detectingProviders > 0 && d.score >= threshold
            && (d.strongSignals > 0 || d.detectingProviders >= 2)
    ensures d.providerSuccesses == |UsableAt(results)| && d.detectingProviders == |DetectingAt(results)|
    ensures d.strongSignals == |StrongAt(d.reasons)|
    ensures d.score == SumWeights(d.reasons)
    ensures d.summary.MetThreshold? ==> d.summary == MetThreshold(d.score, threshold)
    ensures d.summary.LogOnlyMetThreshold? ==> d.summary == LogOnlyMetThreshold(d.score, threshold)
    ensures d.summary.Remained? ==>
              d.summary == Remained(d.score, threshold,
                                    if d.wouldBlock then "below threshold" else "insufficient confidence")
  {
    TalliesAreNonnegative(results);
    TalliesCount(results);
    var score, reasons, successes, detecting, strong, degraded := Tally(results);
    d := Decision(mode, threshold, |results|, true, false, false, score, reasons, successes, detecting, strong,
      degraded || successes < |results|, NoUsableData);
    if successes == 0 {
      return d.(summary := NoUsableData);
    }
    if detecting == 0 {
      return d.(summary := NoSignals);
    }
    var blockCandidate := score >= threshold && (strong > 0 || detecting >= 2);
    d := d.(wouldBlock := blockCandidate);
    match mode {
      case Block => d := d.(blocked := blockCandidate, allowed := !blockCandidate);
      case LogOnly =>
      case Off =>
    }
    if d.blocked {
      return d.(summary := MetThreshold(score, threshold));
    }
    if mode == LogOnly && blockCandidate {
      return d.(summary := LogOnlyMetThreshold(score, threshold));
    }
    var detail := if blockCandidate then "below threshold" else "insufficient confidence";
    d := d.(summary := Remained(score, threshold, detail));
  }

  lemma {:induction false} TalliesAreNonnegative(rs: seq<ProviderResult>)
    ensures Total(Usable, rs) >= 0 && Total(Detecting, rs) >= 0 && Total(Strong, rs) >= 0
  {
    if rs == [] {
    } else {
      TalliesAreNonnegative(rs[1..]);
    }
  }

  // ----- order does not matter ----------------------------------------------

  lemma {:induction false} TotalAppend(f: ProviderResult -> int, a: seq<ProviderResult>, b: seq<ProviderResult>)
    ensures Total(f, a + b) == Total(f, a) + Total(f, b)
  {
    if a == [] {
      assert a + b == b;
    } else {
      assert (a + b)[1..] == a[1..] + b;
      TotalAppend(f, a[1..], b);
    }
  }

  function Without(rs: seq<ProviderResult>, k: nat): seq<ProviderResult>
    requires k < |rs|
  {
    rs[..k] + rs[k + 1..]
  }

  lemma TotalWithout(f: ProviderResult -> int, rs: seq<ProviderResult>, k: nat)
    requires k < |rs|
    ensures Total(f, rs) == f(rs[k]) + Total(f, Without(rs, k))
  {
    assert rs == rs[..k] + rs[k..];
    TotalAppend(f, rs[..k], rs[k..]);
    TotalAppend(f, rs[..k], rs[k + 1..]);
  }

  lemma MultisetWithout(rs: seq<ProviderResult>, k: nat)
    requires k < |rs|
    ensures multiset(Without(rs, k)) == multiset(rs) - multiset{rs[k]}
  {
    assert rs == rs[..k] + ([rs[k]] + rs[k + 1..]);
  }

  lemma {:induction false} TotalIsOrderFree(f: ProviderResult -> int, a: seq<ProviderResult>, b: seq<ProviderResult>)
    requires multiset(a) == multiset(b)
    ensures Total(f, a) == Total(f, b)
  {
    if a == [] {
      assert |b| == |multiset(b)| == 0;
    } else {
      assert a[0] in multiset(b);
      var k :| 0 <= k < |b| && b[k] == a[0];
      MultisetWithout(a, 0);
      MultisetWithout(b, k);
      TotalIsOrderFree(f, Without(a, 0), Without(b, k));
      TotalWithout(f, a, 0);
      TotalWithout(f, b, k);
    }
  }

  /** Permuting the provider results keeps the score and the verdict. */
  lemma VerdictIsOrderFree(threshold: int, a: seq<ProviderResult>, b: seq<ProviderResult>)
    requires multiset(a) == multiset(b)
    ensures Total(Weight, a) == Total(Weight, b)
    ensures Condemned(threshold, a) <==> Condemned(threshold, b)
  {
    TotalIsOrderFree(Weight, a, b);
    TotalIsOrderFree(Usable, a, b);
    TotalIsOrderFree(Detecting, a, b);
    TotalIsOrderFree(Strong, a, b);
  }

  // ----- failing open -------------------------------------------------------

  /** The weights the providers hand out are never negative. */
  predicate NonnegativeWeights(rs: seq<ProviderResult>) {
    forall i, j :: 0 <= i < |rs| && 0 <= j < |rs[i].signals| ==> rs[i].signals[j].weight >= 0
  }

  predicate SignalFreeFailure(r: ProviderResult) { !r.success && r.signals == [] }

  /** after is before with any subset of its results turned into failures. */
  predicate SomeFailed(before: seq<ProviderResult>, after: seq<ProviderResult>) {
    && |before| == |after|
    && forall i :: 0 <= i < |before| ==> after[i] == before[i] || SignalFreeFailure(after[i])
  }

  lemma {:induction false} SumWeightsNonnegative(s: seq<Signal>)
    requires forall j :: 0 <= j < |s| ==> s[j].weight >= 0
    ensures SumWeights(s) >= 0
  {
    if s == [] {
    } else {
      SumWeightsNonnegative(s[1..]);
    }
  }

  lemma {:induction false} TotalIsMonotone(f: ProviderResult -> int, low: seq<ProviderResult>,
                                          high: seq<ProviderResult>)
    requires |low| == |high|
    requires forall i :: 0 <= i < |low| ==> f(low[i]) <= f(high[i])
    ensures Total(f, low) <= Total(f, high)
  {
    if low == [] {
    } else {
      TotalIsMonotone(f, low[1..], high[1..]);
    }
  }

  /** No result that is lost has signals of negative total weight. */
  predicate LosesNothingNegative(before: seq<ProviderResult>, after: seq<ProviderResult>)
    requires |before| == |after|
  {
    forall i :: 0 <= i < |before| ==> after[i] == before[i] || Weight(before[i]) >= 0
  }

  /** Losing results of nonnegative total weight never blocks an allowed player. */
  lemma LossesNeverBlock(threshold: int, before: seq<ProviderResult>, after: seq<ProviderResult>)
    requires SomeFailed(before, after) && LosesNothingNegative(before, after)
    requires Condemned(threshold, after)
    ensures Condemned(threshold, before)
  {
    TotalIsMonotone(Weight, after, before);
    TotalIsMonotone(Usable, after, before);
    TotalIsMonotone(Detecting, after, before);
    TotalIsMonotone(Strong, after, before);
  }

  /** With nonnegative signal weights, provider failures never turn an allowed player
      into a blocked one. */
  lemma FailuresNeverBlock(threshold: int, before: seq<ProviderResult>, after: seq<ProviderResult>)
    requires NonnegativeWeights(before) && SomeFailed(before, after)
    requires Condemned(threshold, after)
    ensures Condemned(threshold, before)
  {
    forall i | 0 <= i < |before|
      ensures Weight(before[i]) >= 0
    {
      SumWeightsNonnegative(before[i].signals);
    }
    LossesNeverBlock(threshold, before, after);
  }

  /** With every provider failing, everybody is allowed at any threshold. */
  lemma AllFailuresAllow(threshold: int, rs: seq<ProviderResult>)
    requires forall r :: r in rs ==> SignalFreeFailure(r)
    ensures !Condemned(threshold, rs)
  {
    NoneUsable(rs);
  }

  lemma {:induction false} NoneUsable(rs: seq<ProviderResult>)
    requires forall r :: r in rs ==> SignalFreeFailure(r)
    ensures Total(Usable, rs) == 0
  {
    if rs == [] {
    } else {
      assert rs[0] in rs;
      NoneUsable(rs[1..]);
    }
  }

  /** Losing a result blocks nobody, whatever the other results and the threshold. */
  ghost predicate HarmlessToLose(r: ProviderResult, failed: ProviderResult) {
    forall others: seq<ProviderResult>, threshold: int ::
      Condemned(threshold, others + [failed]) ==> Condemned(threshold, others + [r])
  }

  lemma TotalTwo(f: ProviderResult -> int, a: ProviderResult, b: ProviderResult)
    ensures Total(f, [a] + [b]) == f(a) + f(b)
  {
    TotalSnoc(f, [a], b);
    TotalSnoc(f, [], a);
    assert [] + [a] == [a];
  }

  /** A result of negative total weight, beside a strong detection right at the
      threshold: losing it blocks a player who was allowed. */
  lemma NegativeWeightBreaksFailOpen(r: ProviderResult, failed: ProviderResult)
    requires Weight(r) < 0 && SignalFreeFailure(failed)
    ensures !HarmlessToLose(r, failed)
  {
    var vpn := ProviderResult("a", true, "", [Signal("a", "strong", "", 80)]);
    assert vpn.signals[1..] == [] && SumWeights(vpn.signals) == 80 && CountStrong(vpn.signals) == 1;
    TotalTwo(Weight, vpn, failed);
    TotalTwo(Usable, vpn, failed);
    TotalTwo(Detecting, vpn, failed);
    TotalTwo(Strong, vpn, failed);
    TotalTwo(Weight, vpn, r);
    assert Condemned(80, [vpn] + [failed]) && !Condemned(80, [vpn] + [r]);
  }

  /** A provider can fail without harm exactly when its signals do not weigh less than
      nothing in all. */
  lemma FailOpenExactly(r: ProviderResult, failed: ProviderResult)
    requires SignalFreeFailure(failed)
    ensures HarmlessToLose(r, failed) <==> Weight(r) >= 0
  {
    if Weight(r) >= 0 {
      forall others: seq<ProviderResult>, threshold: int | Condemned(threshold, others + [failed])
        ensures Condemned(threshold, others + [r])
      {
        LossesNeverBlock(threshold, others + [r], others + [failed]);
      }
    } else {
      NegativeWeightBreaksFailOpen(r, failed);
    }
  }
}
