/** Percentiles of samples that may hold lower bounds, and the verdicts taken from them. */
module Stats {
  import opened Domain

  /** A measured duration; a censored one is a lower bound on the true value. */
  datatype Sample = Sample(ms: real, censored: bool)

  /** A duration, or one that never ends. */
  datatype Ext = Fin(v: real) | Inf

  datatype Quantile = Quantile(atLeast: real, atMost: Option<real>)

  predicate Leq(a: Ext, b: Ext) {
    b.Inf? || (a.Fin? && a.v <= b.v)
  }

  // ----- Sorting -----

  function Insert(x: Ext, s: seq<Ext>): (r: seq<Ext>)
    ensures |r| == |s| + 1
  {
    if s == [] || Leq(x, s[0]) then [x] + s else [s[0]] + Insert(x, s[1..])
  }

  function Sort(s: seq<Ext>): (r: seq<Ext>)
    ensures |r| == |s|
  {
    if s == [] then [] else Insert(s[0], Sort(s[1..]))
  }

  ghost predicate IsSorted(s: seq<Ext>) {
    forall i, j :: 0 <= i <= j < |s| ==> Leq(s[i], s[j])
  }

  function CountUpTo(s: seq<Ext>, v: Ext): (n: nat)
    ensures n <= |s|
  {
    if s == [] then 0 else (if Leq(s[0], v) then 1 else 0) + CountUpTo(s[1..], v)
  }

  lemma {:induction false} InsertCounts(x: Ext, s: seq<Ext>, v: Ext)
    ensures CountUpTo(Insert(x, s), v) == (if Leq(x, v) then 1 else 0) + CountUpTo(s, v)
  {
    if s == [] || Leq(x, s[0]) {
      assert ([x] + s)[1..] == s;
    } else {
      InsertCounts(x, s[1..], v);
      assert ([s[0]] + Insert(x, s[1..]))[1..] == Insert(x, s[1..]);
    }
  }

  lemma {:induction false} InsertSorts(x: Ext, s: seq<Ext>)
    requires IsSorted(s)
    ensures IsSorted(Insert(x, s))
    ensures forall y :: y in Insert(x, s) <==> y == x || y in s
  {
    if s == [] || Leq(x, s[0]) {
    } else {
      InsertSorts(x, s[1..]);
      var rest := Insert(x, s[1..]);
      forall j | 0 <= j < |rest| ensures Leq(s[0], rest[j]) {
        assert rest[j] in rest;
      }
      assert forall y :: y in s <==> y == s[0] || y in s[1..];
    }
  }

  lemma {:induction false} SortFacts(s: seq<Ext>, v: Ext)
    ensures IsSorted(Sort(s)) && CountUpTo(Sort(s), v) == CountUpTo(s, v)
  {
    if s != [] {
      SortFacts(s[1..], v);
      InsertSorts(s[0], Sort(s[1..]));
      InsertCounts(s[0], Sort(s[1..]), v);
    }
  }

  /** In a sorted sequence the `k`-th value is at most `v` exactly when more than `k` values are. */
  lemma {:induction false} SortedCount(s: seq<Ext>, k: nat, v: Ext)
    requires IsSorted(s) && k < |s|
    ensures Leq(s[k], v) <==> CountUpTo(s, v) > k
  {
    assert IsSorted(s[1..]);
    if Leq(s[0], v) {
      if k > 0 { SortedCount(s[1..], k - 1, v); }
    } else {
      NoneUpTo(s, v);
    }
  }

  lemma {:induction false} NoneUpTo(s: seq<Ext>, v: Ext)
    requires forall i :: 0 <= i < |s| ==> !Leq(s[i], v)
    ensures CountUpTo(s, v) == 0
  {
    if s != [] { NoneUpTo(s[1..], v); }
  }

  // ----- Order statistics -----

  /** The `k`-th smallest, from zero. */
  function Kth(s: seq<Ext>, k: nat): Ext
    requires k < |s|
  {
    Sort(s)[k]
  }

  lemma KthCounts(s: seq<Ext>, k: nat, v: Ext)
    requires k < |s|
    ensures Leq(Kth(s, k), v) <==> CountUpTo(s, v) > k
  {
    SortFacts(s, v);
    SortedCount(Sort(s), k, v);
  }

  lemma {:induction false} CountsShrink(a: seq<Ext>, b: seq<Ext>, v: Ext)
    requires |a| == |b| && forall i :: 0 <= i < |a| ==> Leq(a[i], b[i])
    ensures CountUpTo(b, v) <= CountUpTo(a, v)
  {
    if a != [] { CountsShrink(a[1..], b[1..], v); }
  }

  /** Raising values raises every order statistic. */
  lemma KthMonotone(a: seq<Ext>, b: seq<Ext>, k: nat)
    requires |a| == |b| && k < |a| && forall i :: 0 <= i < |a| ==> Leq(a[i], b[i])
    ensures Leq(Kth(a, k), Kth(b, k))
  {
    KthCounts(b, k, Kth(b, k));
    CountsShrink(a, b, Kth(b, k));
    KthCounts(a, k, Kth(b, k));
  }

  // ----- Censored distributions -----

  function Observed(samples: seq<Sample>): (r: seq<Ext>)
    ensures |r| == |samples| && forall i :: 0 <= i < |r| ==> r[i] == Fin(samples[i].ms)
  {
    if samples == [] then [] else [Fin(samples[0].ms)] + Observed(samples[1..])
  }

  /** Every censored value pushed to infinity. */
  function AtWorst(samples: seq<Sample>): (r: seq<Ext>)
    ensures |r| == |samples|
        && forall i :: 0 <= i < |r| ==> r[i] == if samples[i].censored then Inf else Fin(samples[i].ms)
  {
    if samples == [] then [] else [if samples[0].censored then Inf else Fin(samples[0].ms)] + AtWorst(samples[1..])
  }

  function Bounds(samples: seq<Sample>, k: nat): (q: Quantile)
    requires k < |samples|
  {
    var lower, upper := Sort(Observed(samples)), Sort(AtWorst(samples));
    KthIsFinite(Observed(samples), k);
    Quantile(lower[k].v, if upper[k].Fin? then Some(upper[k].v) else None)
  }

  /** The `p`-th percentile when the share above it is worth at least three samples. */
  function Percentile(samples: seq<Sample>, p: nat): Option<Quantile>
    requires p < 100
  {
    var n := |samples|;
    if n * (100 - p) < 300 then None else
    IndexInRange(n, p);
    Some(Bounds(samples, RankOf(n, p)))
  }

  function RankOf(n: nat, p: nat): nat
    requires n > 0
  {
    var k := p * n / 100;
    if k < n - 1 then k else n - 1
  }

  lemma IndexInRange(n: nat, p: nat)
    requires p < 100 && n * (100 - p) >= 300
    ensures n > 0 && RankOf(n, p) < n
  {
  }

  /** A percentile is given exactly when the share above it is worth three samples, and it is the order statistic whose
      index is the `p` hundredths of their number, rounded down. */
  lemma PercentileExactly(samples: seq<Sample>, p: nat)
    requires p < 100
    ensures Percentile(samples, p) == None <==> |samples| * (100 - p) < 300
    ensures Percentile(samples, p).Some? ==>
              exists k :: 0 <= k < |samples| && 100 * k <= p * |samples| < 100 * (k + 1)
                          && Percentile(samples, p) == Some(Bounds(samples, k))
  {
    if |samples| * (100 - p) >= 300 {
      IndexInRange(|samples|, p);
      RankExactly(|samples|, p);
      hide Bounds, RankOf;
    }
  }

  lemma RankExactly(n: nat, p: nat)
    requires n > 0 && p < 100
    ensures 100 * RankOf(n, p) <= p * n < 100 * (RankOf(n, p) + 1)
  {
    assert p * n <= 99 * n;
  }

  predicate AllFinite(s: seq<Ext>) {
    forall i :: 0 <= i < |s| ==> s[i].Fin?
  }

  lemma {:induction false} SortKeepsFinite(s: seq<Ext>)
    requires AllFinite(s)
    ensures AllFinite(Sort(s))
  {
    if s != [] {
      SortKeepsFinite(s[1..]);
      InsertKeepsFinite(s[0], Sort(s[1..]));
    }
  }

  lemma {:induction false} InsertKeepsFinite(x: Ext, s: seq<Ext>)
    requires x.Fin? && AllFinite(s)
    ensures AllFinite(Insert(x, s))
  {
    if s != [] && !Leq(x, s[0]) { InsertKeepsFinite(x, s[1..]); }
  }

  lemma KthIsFinite(s: seq<Ext>, k: nat)
    requires k < |s| && AllFinite(s)
    ensures Kth(s, k).Fin?
  {
    SortKeepsFinite(s);
  }

  // ----- What the true values may have been -----

  /** A way the samples could have ended: measured ones as measured, censored ones at or above what was observed. */
  ghost predicate Completes(truth: seq<real>, samples: seq<Sample>) {
    && |truth| == |samples|
    && forall i :: 0 <= i < |truth| ==>
          truth[i] >= samples[i].ms && (!samples[i].censored ==> truth[i] == samples[i].ms)
  }

  function Finite(truth: seq<real>): (r: seq<Ext>)
    ensures |r| == |truth| && forall i :: 0 <= i < |r| ==> r[i] == Fin(truth[i])
  {
    if truth == [] then [] else [Fin(truth[0])] + Finite(truth[1..])
  }

  ghost function TrueKth(truth: seq<real>, k: nat): real
    requires k < |truth|
  {
    KthIsFinite(Finite(truth), k);
    Kth(Finite(truth), k).v
  }

  /** The true order statistic lies between the bounds, however the censored samples ended. */
  lemma BoundsAreSound(samples: seq<Sample>, k: nat, truth: seq<real>)
    requires k < |samples| && Completes(truth, samples)
    ensures var q := Bounds(samples, k);
            q.atLeast <= TrueKth(truth, k) && (q.atMost.Some? ==> TrueKth(truth, k) <= q.atMost.value)
  {
    KthIsFinite(Finite(truth), k);
    KthIsFinite(Observed(samples), k);
    KthMonotone(Observed(samples), Finite(truth), k);
    KthMonotone(Finite(truth), AtWorst(samples), k);
  }

  function Values(samples: seq<Sample>): (r: seq<real>)
    ensures |r| == |samples| && forall i :: 0 <= i < |r| ==> r[i] == samples[i].ms
  {
    if samples == [] then [] else [samples[0].ms] + Values(samples[1..])
  }

  /** The lower bound is reached: every censored sample may have ended at what was observed. */
  lemma LowerBoundIsReached(samples: seq<Sample>, k: nat)
    requires k < |samples|
    ensures Completes(Values(samples), samples) && TrueKth(Values(samples), k) == Bounds(samples, k).atLeast
  {
    assert Finite(Values(samples)) == Observed(samples);
  }

  function Top(a: real, b: real): real { if a >= b then a else b }

  /** Every censored sample ends at `b`, or where it was observed if that is later. */
  function Late(samples: seq<Sample>, b: real): (r: seq<real>)
    ensures |r| == |samples|
    ensures forall i :: 0 <= i < |r| ==> r[i] == if samples[i].censored then Top(samples[i].ms, b) else samples[i].ms
  {
    if samples == [] then [] else
    [if samples[0].censored then Top(samples[0].ms, b) else samples[0].ms] + Late(samples[1..], b)
  }

  /** Below `b`, ending at `b` looks like never ending. */
  lemma {:induction false} LateCounts(samples: seq<Sample>, b: real, z: real)
    requires z < b
    ensures CountUpTo(Finite(Late(samples, b)), Fin(z)) == CountUpTo(AtWorst(samples), Fin(z))
  {
    if samples != [] {
      LateCounts(samples[1..], b, z);
      assert Finite(Late(samples, b))[1..] == Finite(Late(samples[1..], b));
      assert AtWorst(samples)[1..] == AtWorst(samples[1..]);
    }
  }

  /** The upper bound is reached too; and where there is none, the statistic has no bound. */
  lemma UpperBoundIsReached(samples: seq<Sample>, k: nat, b: real)
    requires k < |samples|
    ensures Completes(Late(samples, b), samples)
    ensures Bounds(samples, k).atMost.Some? && b > Bounds(samples, k).atMost.value ==>
              TrueKth(Late(samples, b), k) == Bounds(samples, k).atMost.value
    ensures Bounds(samples, k).atMost.None? ==> TrueKth(Late(samples, b), k) >= b
  {
    var truth := Late(samples, b);
    var z := TrueKth(truth, k);
    KthIsFinite(Finite(truth), k);
    BoundsAreSound(samples, k, truth);
    if z < b {
      LateCounts(samples, b, z);
      KthCounts(Finite(truth), k, Fin(z));
      KthCounts(AtWorst(samples), k, Fin(z));
    }
  }

  /** Without censoring the bounds meet. */
  lemma ExactWithoutCensoring(samples: seq<Sample>, k: nat)
    requires k < |samples| && forall i :: 0 <= i < |samples| ==> !samples[i].censored
    ensures Bounds(samples, k).atMost == Some(Bounds(samples, k).atLeast)
  {
    assert AtWorst(samples) == Observed(samples);
    KthIsFinite(Observed(samples), k);
  }

  /** The maximum: bounded above only when nothing is censored. */
  function Maximum(samples: seq<Sample>): Quantile
    requires samples != []
  {
    var last := Bounds(samples, |samples| - 1).atLeast;
    Quantile(last, if exists x :: x in samples && x.censored then None else Some(last))
  }

  lemma {:induction false} AllCounted(s: seq<Ext>, v: Ext)
    requires CountUpTo(s, v) == |s|
    ensures forall i :: 0 <= i < |s| ==> Leq(s[i], v)
  {
    if s != [] { AllCounted(s[1..], v); }
  }

  /** It is the last order statistic's bounds. */
  lemma MaximumIsLast(samples: seq<Sample>)
    requires samples != []
    ensures Maximum(samples) == Bounds(samples, |samples| - 1)
  {
    var k := |samples| - 1;
    if x :| x in samples && x.censored {
      var i :| 0 <= i < |samples| && samples[i] == x;
      var top := Kth(AtWorst(samples), k);
      KthCounts(AtWorst(samples), k, top);
      AllCounted(AtWorst(samples), top);
      assert Leq(AtWorst(samples)[i], top);
    } else {
      ExactWithoutCensoring(samples, k);
    }
  }

  // ----- Verdicts -----

  datatype Status = Met | Missed | Inconclusive | NoData | NotMeasured

  function StatusOf(q: Option<Quantile>, limit: real): Status {
    match q
    case None => NoData
    case Some(v) =>
      if v.atLeast > limit then Missed
      else if v.atMost.Some? && v.atMost.value <= limit then Met
      else Inconclusive
  }

  /** The limit holds however the censored samples ended. */
  ghost predicate AlwaysKept(samples: seq<Sample>, k: nat, limit: real)
    requires k < |samples|
  {
    forall truth :: Completes(truth, samples) ==> TrueKth(truth, k) <= limit
  }

  ghost predicate AlwaysBroken(samples: seq<Sample>, k: nat, limit: real)
    requires k < |samples|
  {
    forall truth :: Completes(truth, samples) ==> TrueKth(truth, k) > limit
  }

  /** "met" says exactly that every completion keeps the limit, "missed" that every completion breaks it. */
  lemma StatusIsExact(samples: seq<Sample>, k: nat, limit: real)
    requires k < |samples|
    ensures StatusOf(Some(Bounds(samples, k)), limit) == Met <==> AlwaysKept(samples, k, limit)
    ensures StatusOf(Some(Bounds(samples, k)), limit) == Missed <==> AlwaysBroken(samples, k, limit)
  {
    var q := Bounds(samples, k);
    hide Bounds, Kth, TrueKth, Completes;
    LowerBoundIsReached(samples, k);
    UpperBoundIsReached(samples, k, limit + 1.0);
    if q.atMost.Some? { UpperBoundIsReached(samples, k, q.atMost.value + 1.0); }
    forall truth | Completes(truth, samples)
      ensures q.atLeast <= TrueKth(truth, k) && (q.atMost.Some? ==> TrueKth(truth, k) <= q.atMost.value)
    {
      BoundsAreSound(samples, k, truth);
    }
  }

  /** One target: a percentile of samples, an exact value, or a number this run cannot observe. */
  datatype Check =
    | OfSamples(samples: seq<Sample>, p: nat, limit: real)
    | Exactly(value: Option<real>, limit: real)
    | Elsewhere

  function CheckStatus(c: Check): Status {
    match c
    case OfSamples(samples, p, limit) => if p < 100 then StatusOf(Percentile(samples, p), limit) else NoData
    case Exactly(value, limit) =>
      StatusOf(match value case Some(v) => Some(Quantile(v, Some(v))) case None => None, limit)
    case Elsewhere => NotMeasured
  }

  datatype Verdict = AllMet | SomeMissed | Unsettled | Invalid

  function VerdictOf(valid: bool, matchesTarget: bool, checks: seq<Check>): Verdict {
    if !valid then Invalid
    else if exists c :: c in checks && CheckStatus(c) == Missed then SomeMissed
    else if !matchesTarget || exists c :: c in checks && CheckStatus(c) in {NoData, Inconclusive} then Unsettled
    else AllMet
  }

  /** The check holds in every completion of its samples. */
  ghost predicate SurelyKept(c: Check) {
    match c
    case OfSamples(samples, p, limit) =>
      p < 100 && |samples| * (100 - p) >= 300 && |samples| > 0 && RankOf(|samples|, p) < |samples|
      && AlwaysKept(samples, RankOf(|samples|, p), limit)
    case Exactly(value, limit) => value.Some? && value.value <= limit
    case Elsewhere => true
  }

  ghost predicate SurelyBroken(c: Check) {
    match c
    case OfSamples(samples, p, limit) =>
      p < 100 && |samples| * (100 - p) >= 300 && |samples| > 0 && RankOf(|samples|, p) < |samples|
      && AlwaysBroken(samples, RankOf(|samples|, p), limit)
    case Exactly(value, limit) => value.Some? && value.value > limit
    case Elsewhere => false
  }

  lemma CheckIsExact(c: Check)
    ensures CheckStatus(c) in {Met, NotMeasured} <==> SurelyKept(c)
    ensures CheckStatus(c) == Missed <==> SurelyBroken(c)
  {
    hide Bounds, AlwaysKept, AlwaysBroken;
    match c
    case OfSamples(samples, p, limit) =>
      if p < 100 && |samples| * (100 - p) >= 300 {
        IndexInRange(|samples|, p);
        StatusIsExact(samples, RankOf(|samples|, p), limit);
      }
    case _ =>
  }

  /** A run is called "met" exactly when it is valid, offered the target workload, and every target it observes holds in
      every completion; it is called "missed" exactly when it is valid and some target is broken in every completion. */
  lemma VerdictIsExact(valid: bool, matchesTarget: bool, checks: seq<Check>)
    ensures VerdictOf(valid, matchesTarget, checks) == AllMet <==>
            valid && matchesTarget && forall c :: c in checks ==> SurelyKept(c)
    ensures VerdictOf(valid, matchesTarget, checks) == SomeMissed <==>
          valid && exists c :: c in checks && SurelyBroken(c)
  {
    forall c ensures CheckStatus(c) in {Met, NotMeasured} <==> SurelyKept(c)
             ensures CheckStatus(c) == Missed <==> SurelyBroken(c)
    {
      CheckIsExact(c);
    }
    hide SurelyKept, SurelyBroken;
    forall c | CheckStatus(c) !in {Met, NotMeasured, Missed} ensures CheckStatus(c) in {NoData, Inconclusive} { }
  }
}
