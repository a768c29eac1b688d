/** The statistics fields of the hub and `record_exec` as the loop it is, run by one task. */
module ExecMetrics {
  import opened Basics
  import opened ExecStats

  function CountersAfter(stats: Stats, e: Exec): Stats {
    var s1 := FetchAdd(FetchAdd(stats, Total, 1), Of(e.Outcome()), 1);
    var s2 := FetchAdd(FetchAdd(s1, Nanos, e.Nanos()), Bytes, e.bytes);
    var bucket := BucketIndex(e.Seconds());
    if bucket.Some? then FetchAdd(s2, Bucket(bucket.value), 1) else s2
  }

  /** A whole recording at once. */
  function Recorded(stats: Stats, e: Exec): Stats {
    var n := e.Nanos();
    CountersAfter(stats, e).(
      min := if n < stats.min then n else stats.min,
      max := if n > stats.max then n else stats.max)
  }

  /** The steps of one recorder that nobody interrupts. */
  function Alone(stats: Stats, r: Recorder, n: nat): (Stats, Recorder)
    decreases n
  {
    if n == 0 || r.pc.Finished? then (stats, r)
    else
      var (stats', pc) := AdvanceOne(stats, r, false);
      Alone(stats', r.(pc := pc), n - 1)
  }

  lemma AloneFromMax(stats: Stats, r: Recorder, n: nat)
    requires r.pc.MaxLoad? && n >= 3
    ensures Alone(stats, r, n).1.pc.Finished?
    ensures Alone(stats, r, n).0 == stats.(max := if r.nanos > stats.max then r.nanos else stats.max)
  {
    var r1 := r.(pc := MaxLoop(stats.max));
    assert Alone(stats, r, n) == Alone(stats, r1, n - 1);
    var (stats', pc) := AdvanceOne(stats, r1, false);
    assert Alone(stats, r1, n - 1) == Alone(stats', r1.(pc := pc), n - 2);
    assert pc.Finished? && Alone(stats', r1.(pc := pc), n - 2) == (stats', r1.(pc := pc));
  }

  lemma AloneFromMin(stats: Stats, r: Recorder, n: nat)
    requires r.pc.MinCheck? && n >= 6
    ensures Alone(stats, r, n).1.pc.Finished?
    ensures Alone(stats, r, n).0 == stats.(
              min := if r.nanos < stats.min then r.nanos else stats.min,
              max := if r.nanos > stats.max then r.nanos else stats.max)
  {
    if r.nanos < stats.min {
      var r1 := r.(pc := MinLoad);
      var r2 := r.(pc := MinLoop(stats.min));
      var stats' := stats.(min := r.nanos);
      assert Alone(stats, r, n) == Alone(stats, r1, n - 1);
      assert Alone(stats, r1, n - 1) == Alone(stats, r2, n - 2);
      assert Alone(stats, r2, n - 2) == Alone(stats', r.(pc := MaxLoad), n - 3);
      AloneFromMax(stats', r.(pc := MaxLoad), n - 3);
    } else {
      assert Alone(stats, r, n) == Alone(stats, r.(pc := MaxLoad), n - 1);
      AloneFromMax(stats, r.(pc := MaxLoad), n - 1);
    }
  }

  /** A recorder that nobody interrupts finishes, and leaves what `Recorded` says. */
  lemma AloneIsRecorded(stats: Stats, e: Exec)
    ensures Alone(stats, Recorder(e, e.Nanos(), AddTotal), 11).1.pc.Finished?
    ensures Alone(stats, Recorder(e, e.Nanos(), AddTotal), 11).0 == Recorded(stats, e)
  {
    var r := Recorder(e, e.Nanos(), AddTotal);
    var s1 := FetchAdd(stats, Total, 1);
    var s2 := FetchAdd(s1, Of(e.Outcome()), 1);
    var s3 := FetchAdd(s2, Nanos, r.nanos);
    var s4 := FetchAdd(s3, Bytes, e.bytes);
    var s5 := CountersAfter(stats, e);
    assert Alone(stats, r, 11) == Alone(s1, r.(pc := AddOutcome), 10);
    assert Alone(s1, r.(pc := AddOutcome), 10) == Alone(s2, r.(pc := AddNanos), 9);
    assert Alone(s2, r.(pc := AddNanos), 9) == Alone(s3, r.(pc := AddBytes), 8);
    assert Alone(s3, r.(pc := AddBytes), 8) == Alone(s4, r.(pc := AddBucket), 7);
    assert Alone(s4, r.(pc := AddBucket), 7) == Alone(s5, r.(pc := MinCheck), 6);
    AloneFromMin(s5, r.(pc := MinCheck), 6);
  }

  class Metrics {
    var counters: map<Counter, nat>
    var min: nat
    var max: nat

    constructor ()
      ensures counters == map[] && min == U64_MAX && max == 0
    {
      counters, min, max := map[], U64_MAX, 0;
    }

    function View(): Stats
      reads this
    {
      Stats(counters, min, max)
    }

    method Add(c: Counter, n: nat)
      modifies this`counters
      ensures View() == FetchAdd(old(View()), c, n)
    {
      var value := if c in counters then counters[c] else 0;
      counters := counters[c := (value + n) % TWO_64];
    }

    /** The weak compare-exchange: on success the new value is stored; on failure, spurious or
        not, the value seen is returned. */
    method CompareExchangeMin(cur: nat, n: nat, spurious: bool) returns (ok: bool, seen: nat)
      modifies this`min
      ensures ok <==> old(min) == cur && !spurious
      ensures seen == old(min) && min == if ok then n else old(min)
    {
      seen := min;
      ok := min == cur && !spurious;
      if ok { min := n; }
    }

    method CompareExchangeMax(cur: nat, n: nat, spurious: bool) returns (ok: bool, seen: nat)
      modifies this`max
      ensures ok <==> old(max) == cur && !spurious
      ensures seen == old(max) && max == if ok then n else old(max)
    {
      seen := max;
      ok := max == cur && !spurious;
      if ok { max := n; }
    }

    /** One recording with no other task in between: it has the effect of a recorder's steps run
        back to back, and `spurious` failures of each compare-exchange change nothing. */
    method RecordExec(e: Exec, spurious: nat)
      modifies this
      ensures View() == Recorded(old(View()), e)
    {
      Add(Total, 1);
      if e.blocked {
        Add(Of(Blocked), 1);
      } else if e.timedOut || e.exitCode == -124 {
        Add(Of(Timeout), 1);
      } else if e.exitCode == 0 {
        Add(Of(Success), 1);
      } else {
        Add(Of(Failure), 1);
      }
      var nanos := e.Nanos();
      Add(Nanos, nanos);
      Add(Bytes, e.bytes);
      var bucket := BucketIndex(e.Seconds());
      if bucket.Some? { Add(Bucket(bucket.value), 1); }
      UpdateMin(nanos, spurious);
      UpdateMax(nanos, spurious);
    }

    method UpdateMin(nanos: nat, spurious: nat)
      modifies this`min
      ensures min == if nanos < old(min) then nanos else old(min)
    {
      if nanos < min {
        var cur := min;
        var left := spurious;
        while nanos < cur
          invariant min == old(min) && cur == min
          decreases left
        {
          var ok, seen := CompareExchangeMin(cur, nanos, left > 0);
          if ok { return; }
          cur := seen;
          left := left - 1;
        }
      }
    }

    method UpdateMax(nanos: nat, spurious: nat)
      modifies this`max
      ensures max == if nanos > old(max) then nanos else old(max)
    {
      var cur := max;
      var left := spurious;
      while nanos > cur
        invariant max == old(max) && cur == max
        decreases left
      {
        var ok, seen := CompareExchangeMax(cur, nanos, left > 0);
        if ok { return; }
        cur := seen;
        left := left - 1;
      }
    }
  }
}
