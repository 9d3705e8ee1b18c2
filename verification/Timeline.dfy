/** What a load run's requests looked like over time: one bucket a second by a difference array, and the peak of
    requests waiting by a sweep over their arrivals and answers. */
module Timeline {
  import opened Domain

  const SECOND := 1_000

  /** A request: its planned arrival, its answer if it got one, and whether it counts as an error. */
  datatype Hold = Hold(at: nat, done: Option<nat>, error: bool)

  datatype Bucket = Bucket(arrived: int, answered: int, errors: int, outstanding: int)

  /** No answer comes before the arrival. */
  ghost predicate Proper(holds: seq<Hold>) {
    forall i :: 0 <= i < |holds| && holds[i].done.Some? ==> holds[i].at <= holds[i].done.value
  }

  // ----- The naive counts -----

  /** What a request may be counted for in a second, or, for the last, at an instant. */
  datatype Measure = Arrived | Answered | Failed | Came | Went | StillWaiting | WaitingAt

  predicate Is(m: Measure, h: Hold, k: int) {
    match m
    case Arrived => h.at / SECOND == k
    case Answered => h.done.Some? && h.done.value / SECOND == k && !h.error
    case Failed =>
      // an error counts in the second of its answer, or of its arrival if it never got one
      (match h.done case None => h.at / SECOND == k case Some(d) => d / SECOND == k && h.error)
    case Came => h.done.Some? && h.at / SECOND == k
    case Went => h.done.Some? && h.done.value / SECOND == k
    case StillWaiting =>
      // arrived before the end of the second and answered at its end or later
      h.done.Some? && h.at < (k + 1) * SECOND <= h.done.value
    case WaitingAt => h.done.Some? && h.at <= k < h.done.value
  }

  function Count(holds: seq<Hold>, m: Measure, k: int): nat {
    if holds == [] then 0 else
    Count(holds[..|holds| - 1], m, k) + (if Is(m, holds[|holds| - 1], k) then 1 else 0)
  }

  ghost predicate IsBucket(holds: seq<Hold>, k: int, b: Bucket) {
    && b.arrived == Count(holds, Arrived, k)
    && b.answered == Count(holds, Answered, k)
    && b.errors == Count(holds, Failed, k)
    && b.outstanding == Count(holds, StillWaiting, k)
  }

  lemma CountOne(holds: seq<Hold>, i: nat, m: Measure, k: int)
    requires i < |holds|
    ensures Count(holds[..i + 1], m, k) == Count(holds[..i], m, k) + (if Is(m, holds[i], k) then 1 else 0)
  {
    assert holds[..i + 1][..i] == holds[..i];
  }

  // ----- The difference array -----

  function End(h: Hold): nat {
    match h.done case Some(d) => d case None => h.at
  }

  method LatestEnd(holds: seq<Hold>) returns (end: nat)
    ensures forall h :: h in holds ==> End(h) <= end
    ensures end == 0 || exists h :: h in holds && End(h) == end
  {
    end := 0;
    for i := 0 to |holds|
      invariant forall h :: h in holds[..i] ==> End(h) <= end
      invariant end == 0 || exists h :: h in holds && End(h) == end
    {
      if End(holds[i]) > end { end := End(holds[i]); }
    }
    assert holds[..|holds|] == holds;
  }

  lemma {:induction false} RunningTotal(holds: seq<Hold>, k: nat)
    requires Proper(holds)
    ensures Count(holds, StillWaiting, k) ==
            (if k == 0 then 0 else Count(holds, StillWaiting, k - 1)) + Count(holds, Came, k) - Count(holds, Went, k)
    decreases |holds|
  {
    if holds != [] { RunningTotal(holds[..|holds| - 1], k); }
  }

  lemma {:induction false} NoneWaitAfterTheEnd(holds: seq<Hold>, k: int)
    requires forall h :: h in holds ==> End(h) < (k + 1) * SECOND
    ensures Count(holds, StillWaiting, k) == 0
    decreases |holds|
  {
    if holds != [] {
      NoneWaitAfterTheEnd(holds[..|holds| - 1], k);
      assert holds[|holds| - 1] in holds;
    }
  }

  /** The arrays hold the counts of the first `i` requests. */
  ghost predicate Tallied(holds: seq<Hold>, i: nat, arrived: seq<int>, answered: seq<int>, errors: seq<int>,
      change: seq<int>)
    requires i <= |holds|
  {
    && (forall k :: 0 <= k < |arrived| ==> arrived[k] == Count(holds[..i], Arrived, k))
    && (forall k :: 0 <= k < |answered| ==> answered[k] == Count(holds[..i], Answered, k))
    && (forall k :: 0 <= k < |errors| ==> errors[k] == Count(holds[..i], Failed, k))
    && (forall k :: 0 <= k < |change| ==> change[k] == Count(holds[..i], Came, k) - Count(holds[..i], Went, k))
  }

  /** Counts one more request in the bucket it belongs to. */
  method Tally(holds: seq<Hold>, i: nat, arrived: array<int>, answered: array<int>, errors: array<int>,
      change: array<int>)
    requires i < |holds| && arrived != answered && arrived != errors && arrived != change && answered != errors
        && answered != change && errors != change
    requires arrived.Length == answered.Length == errors.Length && change.Length == arrived.Length + 1
    requires holds[i].at <= End(holds[i]) && End(holds[i]) / SECOND < arrived.Length
    requires Tallied(holds, i, arrived[..], answered[..], errors[..], change[..])
    modifies arrived, answered, errors, change
    ensures Tallied(holds, i + 1, arrived[..], answered[..], errors[..], change[..])
  {
    var x := holds[i];
    forall m, k ensures Count(holds[..i + 1], m, k) == Count(holds[..i], m, k) + (if Is(m, x, k) then 1 else 0) {
      CountOne(holds, i, m, k);
    }
    hide Count;
    var arrivedIn := x.at / SECOND;
    arrived[arrivedIn] := arrived[arrivedIn] + 1;
    match x.done {
      case None =>
        errors[arrivedIn] := errors[arrivedIn] + 1;
      case Some(done) =>
        var answeredIn := done / SECOND;
        if x.error { errors[answeredIn] := errors[answeredIn] + 1;
        } else { answered[answeredIn] := answered[answeredIn] + 1; }
        change[arrivedIn] := change[arrivedIn] + 1;
        change[answeredIn] := change[answeredIn] - 1;
    }
  }

  /** One bucket for every second up to the last answer: each holds the naive counts of its second, and nobody waits at
      the end. */
  method Buckets(holds: seq<Hold>) returns (out: seq<Bucket>)
    requires Proper(holds)
    ensures |out| > 0 && forall k :: 0 <= k < |out| ==> IsBucket(holds, k, out[k])
    ensures forall h :: h in holds ==> End(h) / SECOND < |out|
    ensures out[|out| - 1].outstanding == 0
  {
    hide Count;
    var end := LatestEnd(holds);
    var n := end / SECOND + 1;
    var arrived, answered := new int[n](_ => 0), new int[n](_ => 0);
    var errors, change := new int[n](_ => 0), new int[n + 1](_ => 0);
    NoneCounted(holds);
    for i := 0 to |holds|
      invariant Tallied(holds, i, arrived[..], answered[..], errors[..], change[..])
    {
      assert holds[i] in holds;
      Tally(holds, i, arrived, answered, errors, change);
    }
    assert holds[..|holds|] == holds;
    out := [];
    var waiting := 0;
    for k := 0 to n
      invariant |out| == k && forall j :: 0 <= j < k ==> IsBucket(holds, j, out[j])
      invariant waiting == if k == 0 then 0 else Count(holds, StillWaiting, k - 1)
      invariant Tallied(holds, |holds|, arrived[..], answered[..], errors[..], change[..])
    {
      RunningTotal(holds, k);
      waiting := waiting + change[k];
      out := out + [Bucket(arrived[k], answered[k], errors[k], waiting)];
    }
    NoneWaitAfterTheEnd(holds, n - 1);
  }

  lemma NoneCounted(holds: seq<Hold>)
    ensures forall m, k :: Count(holds[..0], m, k) == 0
  {
  }

  // ----- Totals -----

  function Total(holds: seq<Hold>, m: Measure, n: nat): nat {
    if n == 0 then 0 else Total(holds, m, n - 1) + Count(holds, m, n - 1)
  }

  ghost predicate OnlyIn(m: Measure, h: Hold, at: nat) {
    forall k :: 0 <= k ==> (Is(m, h, k) <==> k == at)
  }

  ghost predicate Nowhere(m: Measure, h: Hold) {
    forall k :: 0 <= k ==> !Is(m, h, k)
  }

  lemma {:induction false} TotalOne(holds: seq<Hold>, m: Measure, n: nat, at: nat)
    requires holds != [] && OnlyIn(m, holds[|holds| - 1], at)
    ensures Total(holds, m, n) == Total(holds[..|holds| - 1], m, n) + (if at < n then 1 else 0)
  {
    if n > 0 { TotalOne(holds, m, n - 1, at); }
  }

  lemma {:induction false} TotalNone(holds: seq<Hold>, m: Measure, n: nat)
    requires holds != [] && Nowhere(m, holds[|holds| - 1])
    ensures Total(holds, m, n) == Total(holds[..|holds| - 1], m, n)
  {
    if n > 0 { TotalNone(holds, m, n - 1); }
  }

  lemma {:induction false} TotalEmpty(m: Measure, n: nat)
    ensures Total([], m, n) == 0
  {
    if n > 0 { TotalEmpty(m, n - 1); }
  }

  /** Over all buckets, arrivals add up to the requests, and so do answers and errors. */
  lemma {:induction false} EveryRequestIsCounted(holds: seq<Hold>, n: nat)
    requires Proper(holds) && forall h :: h in holds ==> End(h) / SECOND < n
    ensures Total(holds, Arrived, n) == |holds|
    ensures Total(holds, Answered, n) + Total(holds, Failed, n) == |holds|
    decreases |holds|
  {
    if holds == [] {
      TotalEmpty(Arrived, n);
      TotalEmpty(Answered, n);
      TotalEmpty(Failed, n);
    } else {
      var h := holds[|holds| - 1];
      assert h in holds;
      EveryRequestIsCounted(holds[..|holds| - 1], n);
      TotalOne(holds, Arrived, n, h.at / SECOND);
      if h.done.Some? && !h.error {
        TotalOne(holds, Answered, n, End(h) / SECOND);
        TotalNone(holds, Failed, n);
      } else {
        TotalNone(holds, Answered, n);
        TotalOne(holds, Failed, n, End(h) / SECOND);
      }
    }
  }

  // ----- The sweep -----

  datatype Event = Event(time: int, change: int)

  /** At one instant an answer comes before an arrival. */
  predicate Before(a: Event, b: Event) {
    a.time < b.time || (a.time == b.time && a.change <= b.change)
  }

  ghost predicate InOrder(es: seq<Event>) {
    forall i, j :: 0 <= i < j < |es| ==> Before(es[i], es[j])
  }

  function EventsOf(holds: seq<Hold>): seq<Event> {
    if holds == [] then [] else
    var h := holds[|holds| - 1];
    EventsOf(holds[..|holds| - 1]) + (if h.done.Some? then [Event(h.at, 1), Event(h.done.value, -1)] else [])
  }

  function Sum(es: seq<Event>): int {
    if es == [] then 0 else Sum(es[..|es| - 1]) + es[|es| - 1].change
  }

  /** The changes up to an instant. */
  function SumBy(es: seq<Event>, t: int): int {
    if es == [] then 0 else
    SumBy(es[..|es| - 1], t) + (if es[|es| - 1].time <= t then es[|es| - 1].change else 0)
  }

  lemma {:induction false} SumByConcat(a: seq<Event>, b: seq<Event>, t: int)
    ensures SumBy(a + b, t) == SumBy(a, t) + SumBy(b, t)
    decreases |b|
  {
    if b == [] {
      assert a + b == a;
    } else {
      SumByConcat(a, b[..|b| - 1], t);
      assert (a + b)[..|a + b| - 1] == a + b[..|b| - 1];
    }
  }

  lemma SumByOne(e: Event, t: int)
    ensures SumBy([e], t) == if e.time <= t then e.change else 0
  {
    assert [e][..0] == [];
  }

  /** Arrivals less answers up to an instant are the requests waiting at it. */
  lemma {:induction false} WaitingIsSum(holds: seq<Hold>, t: int)
    requires Proper(holds)
    ensures SumBy(EventsOf(holds), t) == Count(holds, WaitingAt, t)
    decreases |holds|
  {
    if holds != [] {
      var before, h := holds[..|holds| - 1], holds[|holds| - 1];
      WaitingIsSum(before, t);
      if h.done.Some? {
        var a, d := Event(h.at, 1), Event(h.done.value, -1);
        SumByConcat(EventsOf(before), [a, d], t);
        SumByConcat([a], [d], t);
        SumByOne(a, t);
        SumByOne(d, t);
        assert [a] + [d] == [a, d];
      } else {
        assert EventsOf(before) + [] == EventsOf(before);
      }
    }
  }

  /** `sorted` has the events of `es`, as far as sums can tell. */
  ghost predicate SameSums(es: seq<Event>, sorted: seq<Event>) {
    (forall t :: SumBy(sorted, t) == SumBy(es, t)) && forall e :: e in sorted <==> e in es
  }

  method SortEvents(es: seq<Event>) returns (out: seq<Event>)
    ensures InOrder(out) && SameSums(es, out)
  {
    out := [];
    for i := 0 to |es|
      invariant InOrder(out) && SameSums(es[..i], out)
    {
      var n := 0;
      while n < |out| && Before(out[n], es[i])
        invariant 0 <= n <= |out| && forall j :: 0 <= j < n ==> Before(out[j], es[i])
      {
        n := n + 1;
      }
      InsertedSums(es[..i], out, es[i], n);
      assert es[..i + 1] == es[..i] + [es[i]];
      out := out[..n] + [es[i]] + out[n..];
    }
    assert es[..|es|] == es;
  }

  lemma InsertedSums(es: seq<Event>, out: seq<Event>, e: Event, n: nat)
    requires n <= |out| && SameSums(es, out)
    ensures SameSums(es + [e], out[..n] + [e] + out[n..])
  {
    assert out == out[..n] + out[n..];
    forall t ensures SumBy(out[..n] + [e] + out[n..], t) == SumBy(es + [e], t) {
      SumByConcat(out[..n] + [e], out[n..], t);
      SumByConcat(out[..n], [e], t);
      SumByConcat(out[..n], out[n..], t);
      SumByConcat(es, [e], t);
    }
  }

  /** The running sum after the last event of an instant is the sum up to that instant. */
  lemma {:induction false} SumWhenPast(es: seq<Event>, t: int)
    requires forall i :: 0 <= i < |es| ==> es[i].time <= t
    ensures Sum(es) == SumBy(es, t)
    decreases |es|
  {
    if es != [] { SumWhenPast(es[..|es| - 1], t); }
  }

  lemma {:induction false} SumByLater(es: seq<Event>, t: int)
    requires forall i :: 0 <= i < |es| ==> es[i].time > t || es[i].change >= 0
    ensures SumBy(es, t) >= 0
    decreases |es|
  {
    if es != [] { SumByLater(es[..|es| - 1], t); }
  }

  /** After an arrival the running sum is at most what is waiting at that instant: only arrivals are left at it. */
  lemma AfterArrival(es: seq<Event>, j: nat)
    requires InOrder(es) && j < |es| && es[j].change == 1
    requires forall i :: 0 <= i < |es| ==> es[i].change == 1 || es[i].change == -1
    ensures Sum(es[..j + 1]) <= SumBy(es, es[j].time)
  {
    var t := es[j].time;
    SumWhenPast(es[..j + 1], t);
    var rest := es[j + 1..];
    forall i | 0 <= i < |rest| ensures rest[i].time > t || rest[i].change >= 0 {
      assert Before(es[j], es[j + 1 + i]);
    }
    SumByLater(rest, t);
    SumByConcat(es[..j + 1], rest, t);
    assert es == es[..j + 1] + rest;
  }

  /** How many of the events are at or before an instant. */
  lemma {:induction false} SumByIsPrefix(es: seq<Event>, t: int) returns (j: nat)
    requires InOrder(es)
    ensures j <= |es| && SumBy(es, t) == Sum(es[..j])
    decreases |es|
  {
    if es == [] {
      j := 0;
    } else {
      var n := |es| - 1;
      if es[n].time <= t {
        j := |es|;
        assert es[..j] == es;
        forall i | 0 <= i < |es| ensures es[i].time <= t { if i < n { assert Before(es[i], es[n]); } }
        SumWhenPast(es, t);
      } else {
        j := SumByIsPrefix(es[..n], t);
        assert es[..n][..j] == es[..j];
      }
    }
  }

  lemma {:induction false} EventsAreSteps(holds: seq<Hold>)
    ensures forall e :: e in EventsOf(holds) ==> e.change == 1 || e.change == -1
    decreases |holds|
  {
    if holds != [] { EventsAreSteps(holds[..|holds| - 1]); }
  }

  /** The most requests waiting at one instant: no instant has more, and unless it is zero some instant has as many. */
  method PeakOutstanding(holds: seq<Hold>) returns (peak: int)
    requires Proper(holds)
    ensures forall t: int :: Count(holds, WaitingAt, t) <= peak
    ensures peak == 0 || exists t: int :: Count(holds, WaitingAt, t) == peak
  {
    var events := SortEvents(EventsOf(holds));
    EventsAreSteps(holds);
    forall i | 0 <= i < |events| ensures events[i].change == 1 || events[i].change == -1 {
      assert events[i] in events;
    }
    forall t ensures SumBy(events, t) == Count(holds, WaitingAt, t) { WaitingIsSum(holds, t); }
    hide Count, SumBy, EventsOf, SameSums;
    var now := 0;
    peak := 0;
    for j := 0 to |events|
      invariant now == Sum(events[..j]) && now <= peak
      invariant forall i :: 0 <= i <= j ==> Sum(events[..i]) <= peak
      invariant peak == 0 || exists t: int :: peak <= Count(holds, WaitingAt, t)
    {
      assert events[..j + 1][..j] == events[..j];
      now := now + events[j].change;
      if now > peak {
        peak := now;
        AfterArrival(events, j);
        assert peak <= Count(holds, WaitingAt, events[j].time);
      }
    }
    forall t: int ensures Count(holds, WaitingAt, t) <= peak {
      var j := SumByIsPrefix(events, t);
    }
  }

  lemma {:induction false} EndOfSecond(holds: seq<Hold>, k: int)
    ensures Count(holds, StillWaiting, k) == Count(holds, WaitingAt, (k + 1) * SECOND - 1)
    decreases |holds|
  {
    if holds != [] { EndOfSecond(holds[..|holds| - 1], k); }
  }

  /** The peak is at least every bucket's number outstanding. */
  lemma PeakCoversBuckets(holds: seq<Hold>, peak: int, k: int, b: Bucket)
    requires IsBucket(holds, k, b) && forall t: int :: Count(holds, WaitingAt, t) <= peak
    ensures b.outstanding <= peak
  {
    EndOfSecond(holds, k);
  }
}
