/** The duration histogram: bucket search, cumulative counts and the interpolated quantile,
    and what the reported percentiles mean on the recorded durations. */
module Histogram {
  import opened Basics
  import opened ExecStats

  method DurationBucketIndex(seconds: real) returns (r: Option<nat>)
    ensures r == BucketIndex(seconds)
  {
    var i := 0;
    while i < |BUCKETS|
      invariant i <= |BUCKETS|
      invariant forall j :: 0 <= j < i ==> BUCKETS[j] < seconds
    {
      if seconds <= BUCKETS[i] { return Some(i); }
      i := i + 1;
    }
    return None;
  }

  function Prefix(counts: seq<nat>, n: nat): nat
    requires n <= |counts|
  {
    if n == 0 then 0 else Prefix(counts, n - 1) + counts[n - 1]
  }

  /** The cumulative counts of a snapshot: prefix sums, then the total read separately. */
  method Cumulate(perBucket: seq<nat>, total: nat) returns (cumulative: seq<nat>)
    ensures |cumulative| == |perBucket| + 1 && cumulative[|perBucket|] == total
    ensures forall i :: 0 <= i < |perBucket| ==> cumulative[i] == Prefix(perBucket, i + 1)
  {
    cumulative := [];
    var acc := 0;
    for i := 0 to |perBucket|
      invariant |cumulative| == i && acc == Prefix(perBucket, i)
      invariant forall j :: 0 <= j < i ==> cumulative[j] == Prefix(perBucket, j + 1)
    {
      acc := acc + perBucket[i];
      cumulative := cumulative + [acc];
    }
    cumulative := cumulative + [total];
  }

  function Clamp01(q: real): real { Min(Max(q, 0.0), 1.0) }

  /** The rank that the quantile `q` of `total` values aims at. */
  function Scaled(total: nat, q: real): real { Times(total as real, Clamp01(q)) }

  function Times(x: real, c: real): real { x * c }

  function Target(cumulative: seq<nat>, q: real): real
    requires cumulative != []
  {
    Scaled(cumulative[|cumulative| - 1], q)
  }

  /** `i` is the first entry that reaches the target. */
  predicate Reaches(cumulative: seq<nat>, target: real, i: nat) {
    i < |cumulative| && cumulative[i] as real >= target &&
    forall j :: 0 <= j < i ==> (cumulative[j] as real) < target
  }

  function Lower(i: nat): real
    requires 1 <= i <= |BUCKETS|
  {
    if i == 1 then 0.0 else BUCKETS[i - 2]
  }

  /** The point of the interval below entry `i` that divides it as the target divides the step
      from entry `i - 1` to entry `i`. */
  function Interpolated(cumulative: seq<nat>, target: real, i: nat): real
    requires 1 <= i <= |BUCKETS| && i < |cumulative| && cumulative[i - 1] < cumulative[i]
  {
    var prev, cur := cumulative[i - 1] as real, cumulative[i] as real;
    Between(Lower(i), BUCKETS[i - 1], target - prev, cur - prev)
  }

  function Between(lo: real, hi: real, part: real, whole: real): real
    requires whole != 0.0
  {
    lo + (hi - lo) * (part / whole)
  }

  lemma InterpolatedInRange(cumulative: seq<nat>, target: real, i: nat)
    requires 1 <= i <= |BUCKETS| && Reaches(cumulative, target, i)
    ensures cumulative[i - 1] < cumulative[i]
    ensures Lower(i) < Interpolated(cumulative, target, i) <= BUCKETS[i - 1]
  {
    var prev, cur := cumulative[i - 1] as real, cumulative[i] as real;
    assert prev < target <= cur;
    Divides(Lower(i), BUCKETS[i - 1], target - prev, cur - prev);
  }

  lemma Divides(lo: real, hi: real, part: real, whole: real)
    requires lo < hi && 0.0 < part <= whole
    ensures lo < Between(lo, hi, part, whole) <= hi
  {
    var frac := part / whole;
    assert frac * whole == part;
    assert 0.0 < frac <= 1.0;
    assert 0.0 < (hi - lo) * frac <= hi - lo;
  }

  /** The value reported when entry `at` is the first to reach the target. */
  predicate QuantileAt(cumulative: seq<nat>, target: real, at: nat, r: real) {
    if at == 0 then r == BUCKETS[0]
    else
      && at <= |BUCKETS| && at < |cumulative| && cumulative[at - 1] < cumulative[at]
      && r == Interpolated(cumulative, target, at)
      && Lower(at) < r <= BUCKETS[at - 1]
  }

  /** The quantile as the program computes it. For any counts of up to six entries, monotone or
      not, no index leaves the bounds, the result lies in [0, 30], and past the first entry it
      lies in the interval below the entry that reaches the target: the branch for an entry not
      above its predecessor cannot be taken. */
  method HistogramQuantile(cumulative: seq<nat>, q: real) returns (r: real, ghost at: nat)
    requires |cumulative| <= |BUCKETS| + 1
    ensures 0.0 <= r <= 30.0
    ensures cumulative == [] || cumulative[|cumulative| - 1] == 0 ==> r == 0.0
    ensures cumulative != [] && cumulative[|cumulative| - 1] > 0 ==>
              Reaches(cumulative, Target(cumulative, q), at) && QuantileAt(cumulative, Target(cumulative, q), at, r)
  {
    at := 0;
    var total := if cumulative == [] then 0 else cumulative[|cumulative| - 1];
    if total == 0 { return 0.0, 0; }
    var target := Scaled(total, q);
    TargetInRange(total, q);
    var i := FirstReaching(cumulative, target);
    at := i;
    r := ValueAt(cumulative, target, i);
  }

  /** The search for the first entry that reaches the target. */
  method FirstReaching(cumulative: seq<nat>, target: real) returns (i: nat)
    requires cumulative != [] && cumulative[|cumulative| - 1] as real >= target
    ensures Reaches(cumulative, target, i)
  {
    i := 0;
    while (cumulative[i] as real) < target
      invariant i < |cumulative|
      invariant forall j :: 0 <= j < i ==> (cumulative[j] as real) < target
      decreases |cumulative| - i
    {
      i := i + 1;
    }
  }

  /** What the loop returns when entry `i` is the first to reach the target. */
  method ValueAt(cumulative: seq<nat>, target: real, i: nat) returns (r: real)
    requires i <= |BUCKETS| && Reaches(cumulative, target, i)
    ensures QuantileAt(cumulative, target, i, r)
    ensures 0.0 <= r <= 30.0
  {
    if i == 0 { return BUCKETS[0]; }
    InterpolatedInRange(cumulative, target, i);
    var prev, cur := cumulative[i - 1] as real, cumulative[i] as real;
    if cur <= prev {
      assert false;
      return 0.0;
    }
    var lo := if i == 1 then 0.0 else BUCKETS[i - 2];
    var hi := BUCKETS[i - 1];
    r := Between(lo, hi, target - prev, cur - prev);
  }

  /** The rank aimed at is the given fraction of the total; fractions below 0 and above 1 count as those. */
  lemma RankExactly(total: nat, q: real)
    ensures q <= 0.0 ==> Scaled(total, q) == 0.0
    ensures 0.0 <= q <= 1.0 ==> Scaled(total, q) == total as real * q
    ensures q >= 1.0 ==> Scaled(total, q) == total as real
  {
    if q <= 0.0 { assert total as real * 0.0 == 0.0; }
    if q >= 1.0 { assert total as real * 1.0 == total as real; }
  }

  /** Past the first entry the value divides its interval, which ends at the bound before the entry's own,
      as the target divides the counts: linear interpolation. */
  lemma InterpolatesLinearly(cumulative: seq<nat>, target: real, at: nat, r: real)
    requires 1 <= at && QuantileAt(cumulative, target, at, r)
    ensures var lo, hi := if at == 1 then 0.0 else BUCKETS[at - 2], BUCKETS[at - 1];
            var before, here := cumulative[at - 1] as real, cumulative[at] as real;
            (r - lo) * (here - before) == (hi - lo) * (target - before)
  {
    var lo, hi := Lower(at), BUCKETS[at - 1];
    var part, whole := target - cumulative[at - 1] as real, (cumulative[at] - cumulative[at - 1]) as real;
    assert r - lo == (hi - lo) * (part / whole);
    Regroup(hi - lo, part / whole, whole);
    assert part / whole * whole == part;
  }

  lemma Regroup(a: real, b: real, c: real)
    ensures (a * b) * c == a * (b * c)
  {
  }

  lemma TargetInRange(total: nat, q: real)
    ensures 0.0 <= Scaled(total, q) <= total as real
  {
    Fraction(total as real, Clamp01(q));
  }

  lemma Fraction(x: real, c: real)
    requires 0.0 <= x && 0.0 <= c <= 1.0
    ensures 0.0 <= Times(x, c) <= x
  {
    assert 0.0 <= x * (1.0 - c);
    assert x * (1.0 - c) == x - x * c;
  }

  // ---------------------------------------------------------------- what the percentiles mean

  function AtMost(s: State, x: real): set<nat> {
    set id | id in s.recorders && s.recorders[id].exec.Seconds() <= x
  }

  function Below(s: State, x: real): set<nat> {
    set id | id in s.recorders && s.recorders[id].exec.Seconds() < x
  }

  /** `v` is the recorded duration whose rank is the first to reach the target. */
  ghost predicate OrderStatistic(s: State, target: real, v: real) {
    |AtMost(s, v)| as real >= target > |Below(s, v)| as real
  }

  /** A recorded duration that no duration of `ids` exceeds. */
  lemma {:induction false} Longest(s: State, ids: set<nat>) returns (top: nat)
    requires ids != {} && ids <= s.recorders.Keys
    ensures top in ids
    ensures forall id :: id in ids ==> s.recorders[id].exec.Seconds() <= s.recorders[top].exec.Seconds()
    decreases |ids|
  {
    var one :| one in ids;
    if ids == {one} { return one; }
    assert ids - {one} != {};
    var rest := Longest(s, ids - {one});
    top := if s.recorders[one].exec.Seconds() <= s.recorders[rest].exec.Seconds() then rest else one;
  }

  lemma {:induction false} DescendTo(s: State, target: real, from: real) returns (v: real)
    requires target > 0.0 && |AtMost(s, from)| as real >= target
    ensures OrderStatistic(s, target, v)
    decreases |Below(s, from)|
  {
    if |Below(s, from)| as real < target { return from; }
    assert Below(s, from) != {};
    var top := Longest(s, Below(s, from));
    var next := s.recorders[top].exec.Seconds();
    assert AtMost(s, next) == Below(s, from);
    assert top in Below(s, from) && top !in Below(s, next);
    ProperSubsetSize(Below(s, next), Below(s, from));
    v := DescendTo(s, target, next);
  }

  lemma ProperSubsetSize(a: set<nat>, b: set<nat>)
    requires a < b
    ensures |a| < |b|
  {
    SubsetSize(a, b);
    if |a| == |b| {
      var x :| x in b && x !in a;
      SubsetSize(a, b - {x});
    }
  }

  /** Every rank from above zero to the number of recordings has its order statistic. */
  lemma OrderStatisticExists(s: State, target: real) returns (v: real)
    requires 0.0 < target <= |s.recorders| as real && s.recorders != map[]
    ensures OrderStatistic(s, target, v)
  {
    assert s.recorders.Keys != {} && |s.recorders.Keys| == |s.recorders|;
    var top := Longest(s, s.recorders.Keys);
    assert AtMost(s, s.recorders[top].exec.Seconds()) == s.recorders.Keys;
    v := DescendTo(s, target, s.recorders[top].exec.Seconds());
  }

  function PerBucket(s: State): seq<nat> {
    seq(|BUCKETS|, i requires 0 <= i < |BUCKETS| => s.stats.Value(Bucket(i)))
  }

  lemma BucketIndexExactly(seconds: real, i: nat)
    requires i < |BUCKETS|
    ensures BucketIndex(seconds) == Some(i) <==> seconds <= BUCKETS[i] && (i == 0 || BUCKETS[i - 1] < seconds)
  {
  }

  lemma NextBucket(s: State, i: nat)
    requires i < |BUCKETS|
    ensures i == 0 ==> AtMost(s, BUCKETS[i]) == InBucket(s, Some(i))
    ensures i > 0 ==> AtMost(s, BUCKETS[i]) == AtMost(s, BUCKETS[i - 1]) + InBucket(s, Some(i)) &&
                      AtMost(s, BUCKETS[i - 1]) !! InBucket(s, Some(i))
  {
    forall id | id in s.recorders
      ensures id in InBucket(s, Some(i)) <==>
                id in AtMost(s, BUCKETS[i]) && (i == 0 || id !in AtMost(s, BUCKETS[i - 1]))
    {
      BucketIndexExactly(s.recorders[id].exec.Seconds(), i);
    }
    if i > 0 { assert BUCKETS[i - 1] < BUCKETS[i]; }
  }

  /** The total and the bucket counters hold exactly what was recorded. */
  ghost predicate Exact(s: State) {
    && s.stats.Value(Total) == |s.recorders|
    && (forall i :: 0 <= i < |BUCKETS| ==> PerBucket(s)[i] == |InBucket(s, Some(i))|)
  }

  lemma BucketsAreExact(s: State, i: nat)
    requires Inv(s) && Quiescent(s) && i < |BUCKETS|
    ensures PerBucket(s)[i] == |InBucket(s, Some(i))|
  {
    BucketCounter(s, i);
  }

  /** Every run that has come to rest leaves the counters exact. */
  lemma RunsAreExact(steps: seq<Step>)
    requires Valid(INIT, steps) && Quiescent(After(INIT, steps))
    ensures Exact(After(INIT, steps))
  {
    InitInv();
    RunKeepsInv(INIT, steps);
    TotalCounter(After(INIT, steps));
    forall i | 0 <= i < |BUCKETS| ensures PerBucket(After(INIT, steps))[i] == |InBucket(After(INIT, steps), Some(i))| {
      BucketsAreExact(After(INIT, steps), i);
    }
  }

  lemma {:induction false} PrefixCounts(s: State, n: nat)
    requires Exact(s) && 1 <= n <= |BUCKETS|
    ensures Prefix(PerBucket(s), n) == |AtMost(s, BUCKETS[n - 1])|
    decreases n
  {
    NextBucket(s, n - 1);
    if n == 1 {
      assert Prefix(PerBucket(s), 0) == 0;
    } else {
      PrefixCounts(s, n - 1);
    }
  }

  /** Finite buckets plus overflow sum to the total. */
  lemma BucketsPartition(s: State)
    requires Exact(s)
    ensures Prefix(PerBucket(s), |BUCKETS|) + |InBucket(s, None)| == s.stats.Value(Total)
  {
    PrefixCounts(s, |BUCKETS|);
    assert AtMost(s, BUCKETS[4]) + InBucket(s, None) == s.recorders.Keys;
    assert AtMost(s, BUCKETS[4]) !! InBucket(s, None);
    assert |s.recorders.Keys| == |s.recorders|;
  }

  /** Read after every recorder has finished, a percentile with `q > 0` is never below the true
      order statistic when the rank falls in the first bucket, and strictly below it otherwise:
      past the first bucket the program interpolates one bucket too low. */
  lemma PercentileBounds(s: State, cumulative: seq<nat>, q: real, r: real, at: nat, v: real)
    requires Exact(s) && q > 0.0
    requires |cumulative| == |BUCKETS| + 1 && cumulative[|BUCKETS|] == s.stats.Value(Total)
    requires forall i :: 0 <= i < |BUCKETS| ==> cumulative[i] == Prefix(PerBucket(s), i + 1)
    // what HistogramQuantile ensures of its results
    requires Reaches(cumulative, Target(cumulative, q), at)
    requires QuantileAt(cumulative, Target(cumulative, q), at, r)
    requires OrderStatistic(s, Target(cumulative, q), v)
    ensures if at == 0 then v <= r else r < v
  {
    if at == 0 {
      PrefixCounts(s, 1);
      if v > BUCKETS[0] {
        SubsetSize(AtMost(s, BUCKETS[0]), Below(s, v));
      }
    } else {
      PrefixCounts(s, at);
      assert cumulative[at - 1] == |AtMost(s, BUCKETS[at - 1])|;
      if v <= BUCKETS[at - 1] {
        SubsetSize(AtMost(s, v), AtMost(s, BUCKETS[at - 1]));
      }
    }
  }

  function Rank(s: State, q: real): real { Scaled(s.stats.Value(Total), q) }

  /** The percentile the program reports for a quiescent state, against the recorded durations:
      correct as an upper bound in the first bucket, too low in every other one. */
  method Percentile(s: State, q: real) returns (r: real)
    requires Exact(s) && q > 0.0 && s.recorders != map[]
    ensures 0.0 <= r <= 30.0
    ensures exists v :: OrderStatistic(s, Rank(s, q), v)
    ensures forall v :: OrderStatistic(s, Rank(s, q), v) ==>
              if |AtMost(s, BUCKETS[0])| as real >= Rank(s, q) then v <= r else r < v
  {
    var cumulative := Cumulate(PerBucket(s), s.stats.Value(Total));
    NonEmpty(s);
    ghost var at;
    r, at := HistogramQuantile(cumulative, q);
    PercentileMeans(s, cumulative, q, r, at);
    RankInRange(s, q);
    ghost var v := OrderStatisticExists(s, Rank(s, q));
  }

  lemma RankInRange(s: State, q: real)
    requires Exact(s) && q > 0.0 && s.recorders != map[]
    ensures 0.0 < Rank(s, q) <= |s.recorders| as real
  {
    NonEmpty(s);
    TargetInRange(|s.recorders|, q);
    PositiveTimes(|s.recorders| as real, Clamp01(q));
  }

  lemma PositiveTimes(n: real, c: real)
    requires n >= 1.0 && c > 0.0
    ensures Times(n, c) > 0.0
  {
    assert (n - 1.0) * c >= 0.0;
    assert (n - 1.0) * c == n * c - c;
  }

  lemma PercentileMeans(s: State, cumulative: seq<nat>, q: real, r: real, at: nat)
    requires Exact(s) && q > 0.0
    requires |cumulative| == |BUCKETS| + 1 && cumulative[|BUCKETS|] == s.stats.Value(Total)
    requires forall i :: 0 <= i < |BUCKETS| ==> cumulative[i] == Prefix(PerBucket(s), i + 1)
    requires Reaches(cumulative, Target(cumulative, q), at)
    requires QuantileAt(cumulative, Target(cumulative, q), at, r)
    ensures forall v :: OrderStatistic(s, Rank(s, q), v) ==>
              if |AtMost(s, BUCKETS[0])| as real >= Rank(s, q) then v <= r else r < v
  {
    assert Target(cumulative, q) == Rank(s, q);
    FirstEntry(s, cumulative);
    forall v | OrderStatistic(s, Rank(s, q), v)
      ensures if |AtMost(s, BUCKETS[0])| as real >= Rank(s, q) then v <= r else r < v
    {
      PercentileBounds(s, cumulative, q, r, at, v);
    }
  }

  lemma FirstEntry(s: State, cumulative: seq<nat>)
    requires Exact(s) && cumulative != [] && cumulative[0] == Prefix(PerBucket(s), 1)
    ensures cumulative[0] == |AtMost(s, BUCKETS[0])|
  {
    PrefixCounts(s, 1);
  }

  lemma NonEmpty(s: State)
    requires s.recorders != map[]
    ensures |s.recorders| > 0
  {
    assert s.recorders.Keys != {};
    assert |s.recorders.Keys| == |s.recorders|;
  }
}
