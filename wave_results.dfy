/**
 * A simulated signal's history (oombak_sim/src/message/response/results.rs):
 * a run-length-encoded sequence of values, each held for a number of time
 * units, with a parallel index of the time each run starts at. The wave
 * read out at time t is the value of the run covering t; times start at 0.
 */
module WaveResults {
  import opened Wrappers
  import opened Bits
  import DutBindings

  /** A run: a value held for `duration` consecutive time units. */
  datatype CompactWaveValue<T> = CompactWaveValue(value: T, duration: nat)

  /** `d` copies of `v`. */
  function Repeat<T>(v: T, d: nat): (r: seq<T>)
    ensures |r| == d
    ensures forall j :: 0 <= j < d ==> r[j] == v
  {
    seq(d, _ => v)
  }

  /** The sum of the durations. */
  function TotalDuration<T>(cs: seq<CompactWaveValue<T>>): nat {
    if cs == [] then 0 else TotalDuration(cs[..|cs| - 1]) + cs[|cs| - 1].duration
  }

  /** The wave as one value per time unit: each run repeated for its duration. */
  function Expand<T>(cs: seq<CompactWaveValue<T>>): (r: seq<T>)
    ensures |r| == TotalDuration(cs)
  {
    if cs == [] then [] else Expand(cs[..|cs| - 1]) + Repeat(cs[|cs| - 1].value, cs[|cs| - 1].duration)
  }

  /** Runs are non-empty and neighbouring runs hold different values. */
  predicate Compacted<T(==)>(cs: seq<CompactWaveValue<T>>) {
    && (forall i :: 0 <= i < |cs| ==> cs[i].duration > 0)
    && (forall i :: 0 <= i < |cs| - 1 ==> cs[i].value != cs[i + 1].value)
  }

  /** Run i starts where the runs before it end. */
  predicate Indexed<T>(starts: seq<nat>, cs: seq<CompactWaveValue<T>>) {
    |starts| == |cs| && forall i :: 0 <= i < |cs| ==> starts[i] == TotalDuration(cs[..i])
  }

  /** The index as the source builds it: the first run at 0, each next one where the previous ends. */
  lemma {:induction false} IndexedSteps<T>(starts: seq<nat>, cs: seq<CompactWaveValue<T>>)
    requires Indexed(starts, cs)
    ensures |cs| > 0 ==> starts[0] == 0
    ensures forall i :: 0 <= i < |cs| - 1 ==> starts[i + 1] == starts[i] + cs[i].duration
  {
    forall i | 0 <= i < |cs| - 1
      ensures starts[i + 1] == starts[i] + cs[i].duration
    {
      assert cs[..i + 1][..i] == cs[..i];
    }
  }

  /** Wave::end_time: the last time unit covered, 0 for an empty wave. */
  function EndTime<T>(starts: seq<nat>, cs: seq<CompactWaveValue<T>>): nat
    requires Indexed(starts, cs) && Compacted(cs)
  {
    if starts == [] then 0 else starts[|starts| - 1] + cs[|cs| - 1].duration - 1
  }

  /** A non-empty wave ends one unit before its total duration. */
  lemma {:induction false} EndTimeIsLength<T>(starts: seq<nat>, cs: seq<CompactWaveValue<T>>)
    requires Indexed(starts, cs) && Compacted(cs)
    ensures cs == [] ==> EndTime(starts, cs) == 0
    ensures cs != [] ==> EndTime(starts, cs) == |Expand(cs)| - 1 >= 0
  {
  }

  /** slice::partition_point(|t| t <= time): how many leading entries are at most `time`. */
  function PartitionPoint(s: seq<nat>, time: nat): (k: nat)
    ensures k <= |s|
    ensures forall j :: 0 <= j < k ==> s[j] <= time
    ensures k < |s| ==> s[k] > time
  {
    if s == [] || s[0] > time then 0 else 1 + PartitionPoint(s[1..], time)
  }

  /** Wave::find: the run covering `time` and the offset into it. */
  function Find<T>(starts: seq<nat>, cs: seq<CompactWaveValue<T>>, time: nat): Option<(nat, nat)>
    requires Indexed(starts, cs) && Compacted(cs)
  {
    if starts == [] || time > EndTime(starts, cs) then None
    else
      IndexedSteps(starts, cs);
      var index := PartitionPoint(starts, time) - 1;
      Some((index, time - starts[index]))
  }

  /** Wave::at: the value of the run covering `time`. */
  function At<T>(starts: seq<nat>, cs: seq<CompactWaveValue<T>>, time: nat): Option<T>
    requires Indexed(starts, cs) && Compacted(cs)
  {
    match Find(starts, cs, time)
    case Some((index, _)) => Some(cs[index].value)
    case None => None
  }

  /** Wave::is_empty: no runs, which for a compacted wave means no time units. */
  function IsEmpty<T>(starts: seq<nat>, cs: seq<CompactWaveValue<T>>): (r: bool)
    requires Indexed(starts, cs) && Compacted(cs)
    ensures r <==> Expand(cs) == []
  {
    if cs == [] then true
    else
      assert TotalDuration(cs) >= cs[|cs| - 1].duration > 0;
      false
  }

  // ---------------------------------------------------------------------------
  // Reading the wave
  // ---------------------------------------------------------------------------

  /** Time unit `offset` of run i is the value of run i. */
  lemma {:induction false} ExpandAt<T>(cs: seq<CompactWaveValue<T>>, i: nat, offset: nat)
    requires i < |cs| && offset < cs[i].duration
    ensures TotalDuration(cs[..i]) + offset < |Expand(cs)|
    ensures Expand(cs)[TotalDuration(cs[..i]) + offset] == cs[i].value
    decreases |cs|
  {
    var front := cs[..|cs| - 1];
    if i == |cs| - 1 {
      assert cs[..i] == front;
    } else {
      ExpandAt(front, i, offset);
      assert front[..i] == cs[..i];
    }
  }

  /**
   * find(t) is None exactly when t is past the wave's end (or the wave is
   * empty); otherwise it names the run covering t: it starts at or before
   * t and t lies within its duration.
   */
  lemma {:induction false} FindCovers<T>(starts: seq<nat>, cs: seq<CompactWaveValue<T>>, time: nat)
    requires Indexed(starts, cs) && Compacted(cs)
    ensures Find(starts, cs, time).None? <==> time >= |Expand(cs)|
    ensures Find(starts, cs, time).Some? ==>
      var (index, offset) := Find(starts, cs, time).value;
      && index < |cs| && starts[index] + offset == time && offset < cs[index].duration
  {
    EndTimeIsLength(starts, cs);
    IndexedSteps(starts, cs);
  }

  /** at(t) is the t-th value of the expanded wave, and None past its end. */
  lemma {:induction false} AtIsExpand<T>(starts: seq<nat>, cs: seq<CompactWaveValue<T>>, time: nat)
    requires Indexed(starts, cs) && Compacted(cs)
    ensures time < |Expand(cs)| ==> At(starts, cs, time) == Some(Expand(cs)[time])
    ensures time >= |Expand(cs)| ==> At(starts, cs, time).None?
  {
    FindCovers(starts, cs, time);
    if time < |Expand(cs)| {
      var (index, offset) := Find(starts, cs, time).value;
      ExpandAt(cs, index, offset);
    }
  }

  // ---------------------------------------------------------------------------
  // Expansion facts
  // ---------------------------------------------------------------------------

  lemma {:induction false} ExpandAppend<T>(a: seq<CompactWaveValue<T>>, b: seq<CompactWaveValue<T>>)
    ensures Expand(a + b) == Expand(a) + Expand(b)
    decreases |b|
  {
    if b == [] {
      assert a + b == a;
    } else {
      assert (a + b)[..|a + b| - 1] == a + b[..|b| - 1];
      ExpandAppend(a, b[..|b| - 1]);
    }
  }

  lemma {:induction false} ExpandOne<T>(c: CompactWaveValue<T>)
    ensures Expand([c]) == Repeat(c.value, c.duration)
  {
    assert [c][..0] == [];
  }

  /** The time units of runs [i, j) are the expansion of those runs. */
  lemma {:induction false} ExpandRange<T>(cs: seq<CompactWaveValue<T>>, i: nat, j: nat)
    requires i <= j <= |cs|
    ensures TotalDuration(cs[..i]) <= TotalDuration(cs[..j]) <= |Expand(cs)|
    ensures Expand(cs)[TotalDuration(cs[..i])..TotalDuration(cs[..j])] == Expand(cs[i..j])
  {
    assert cs == cs[..i] + cs[i..j] + cs[j..];
    assert cs[..j] == cs[..i] + cs[i..j];
    ExpandAppend(cs[..i] + cs[i..j], cs[j..]);
    ExpandAppend(cs[..i], cs[i..j]);
  }

  /** Runs start in increasing order: run j starts no earlier than run i ends. */
  lemma {:induction false} StartsIncrease<T>(starts: seq<nat>, cs: seq<CompactWaveValue<T>>, i: nat, j: nat)
    requires Indexed(starts, cs) && i < j < |cs|
    ensures starts[i] + cs[i].duration <= starts[j]
  {
    ExpandRange(cs, i + 1, j);
    assert cs[..i + 1][..i] == cs[..i];
  }

  lemma {:induction false} RepeatSplit<T>(v: T, a: nat, b: nat)
    ensures Repeat(v, a + b) == Repeat(v, a) + Repeat(v, b)
  {
  }

  /** A piece of a repetition is a shorter repetition. */
  lemma {:induction false} RepeatPiece<T>(x: seq<T>, v: T, d: nat, a: nat, b: nat)
    requires x == Repeat(v, d) && a <= b <= d
    ensures x[a..b] == Repeat(v, b - a)
  {
  }

  lemma {:induction false} SliceOfSlice<T>(x: seq<T>, t: nat, n: nat, a: nat, b: nat)
    requires a <= b <= n && t + n <= |x|
    ensures x[t + a..t + b] == x[t..t + n][a..b]
  {
    var p, q := x[t + a..t + b], x[t..t + n][a..b];
    forall j | 0 <= j < |p|
      ensures p[j] == q[j]
    {
    }
  }

  /** Three adjacent pieces of x, known separately, make up the piece they span. */
  lemma {:induction false} SliceSplit3<T>(x: seq<T>, a: nat, b: nat, c: nat, d: nat, p: seq<T>, q: seq<T>, r: seq<T>)
    requires a <= b <= c <= d <= |x|
    requires x[a..b] == p && x[b..c] == q && x[c..d] == r
    ensures x[a..d] == p + q + r
  {
    assert x[a..d] == x[a..b] + x[b..c] + x[c..d];
  }

  /** Run i occupies the time units from its start for its duration. */
  lemma {:induction false} RunUnits<T>(cs: seq<CompactWaveValue<T>>, i: nat)
    requires i < |cs|
    ensures TotalDuration(cs[..i + 1]) == TotalDuration(cs[..i]) + cs[i].duration <= |Expand(cs)|
    ensures Expand(cs)[TotalDuration(cs[..i])..TotalDuration(cs[..i]) + cs[i].duration] == Repeat(cs[i].value, cs[i].duration)
  {
    assert cs[..i + 1][..i] == cs[..i];
    ExpandRange(cs, i, i + 1);
    ExpandOne(cs[i]);
    assert cs[i..i + 1] == [cs[i]];
  }

  /** Offsets a..b of run i, as a run of its own. */
  lemma {:induction false} RunPiece<T>(cs: seq<CompactWaveValue<T>>, i: nat, a: nat, b: nat)
    requires i < |cs| && a <= b <= cs[i].duration
    ensures TotalDuration(cs[..i + 1]) == TotalDuration(cs[..i]) + cs[i].duration <= |Expand(cs)|
    ensures Expand([CompactWaveValue(cs[i].value, b - a)])
      == Expand(cs)[TotalDuration(cs[..i]) + a..TotalDuration(cs[..i]) + b]
  {
    var e, t, d := Expand(cs), TotalDuration(cs[..i]), cs[i].duration;
    RunUnits(cs, i);
    SliceOfSlice(e, t, d, a, b);
    RepeatPiece(e[t..t + d], cs[i].value, d, a, b);
    ExpandOne(CompactWaveValue(cs[i].value, b - a));
  }

  /**
   * From offset so of run si to offset eo of a later run ei: the tail of run
   * si, the whole runs between, and the head of run ei.
   */
  lemma {:induction false} SliceAcrossRuns<T>(cs: seq<CompactWaveValue<T>>, si: nat, so: nat, ei: nat, eo: nat)
    requires si < ei < |cs| && so < cs[si].duration && eo < cs[ei].duration
    ensures TotalDuration(cs[..si]) + so <= TotalDuration(cs[..ei]) + eo < |Expand(cs)|
    ensures Expand([CompactWaveValue(cs[si].value, cs[si].duration - so)] + cs[si + 1..ei] + [CompactWaveValue(cs[ei].value, eo + 1)])
      == Expand(cs)[TotalDuration(cs[..si]) + so..TotalDuration(cs[..ei]) + eo + 1]
  {
    var first := CompactWaveValue(cs[si].value, cs[si].duration - so);
    var last := CompactWaveValue(cs[ei].value, eo + 1);
    var mid := cs[si + 1..ei];
    var s, m1, m2 := TotalDuration(cs[..si]), TotalDuration(cs[..si + 1]), TotalDuration(cs[..ei]);
    ExpandRange(cs, si + 1, ei);
    RunPiece(cs, si, so, cs[si].duration);
    RunPiece(cs, ei, 0, eo + 1);
    SliceSplit3(Expand(cs), s + so, m1, m2, m2 + eo + 1, Expand([first]), Expand(mid), Expand([last]));
    ExpandThree([first], mid, [last]);
  }

  lemma {:induction false} ExpandThree<T>(a: seq<CompactWaveValue<T>>, b: seq<CompactWaveValue<T>>, c: seq<CompactWaveValue<T>>)
    ensures Expand(a + b + c) == Expand(a) + Expand(b) + Expand(c)
  {
    ExpandAppend(a + b, c);
    ExpandAppend(a, b);
  }

  /** Lengthening the last run by d adds d copies of its value and keeps the invariant. */
  lemma {:induction false} MergeLast<T>(starts: seq<nat>, cs: seq<CompactWaveValue<T>>, d: nat)
    requires Indexed(starts, cs) && Compacted(cs) && cs != []
    ensures var n := |cs|;
      var cs' := cs[..n - 1] + [CompactWaveValue(cs[n - 1].value, cs[n - 1].duration + d)];
      && Indexed(starts, cs') && Compacted(cs')
      && Expand(cs') == Expand(cs) + Repeat(cs[n - 1].value, d)
  {
    var n := |cs|;
    var last := cs[n - 1];
    var cs' := cs[..n - 1] + [CompactWaveValue(last.value, last.duration + d)];
    assert cs'[..n - 1] == cs[..n - 1];
    forall i | 0 <= i < n
      ensures cs'[..i] == cs[..i]
    {
      assert cs'[..i] == cs'[..n - 1][..i];
    }
    RepeatSplit(last.value, last.duration, d);
  }

  /** Adding a run of a new value, starting where the wave ends, keeps the invariant. */
  lemma {:induction false} PushRun<T>(starts: seq<nat>, cs: seq<CompactWaveValue<T>>, cv: CompactWaveValue<T>)
    requires Indexed(starts, cs) && Compacted(cs) && cv.duration > 0
    requires cs != [] ==> cs[|cs| - 1].value != cv.value
    ensures cs != [] ==> TotalDuration(cs) == starts[|cs| - 1] + cs[|cs| - 1].duration
    ensures Indexed(starts + [TotalDuration(cs)], cs + [cv]) && Compacted(cs + [cv])
    ensures Expand(cs + [cv]) == Expand(cs) + Repeat(cv.value, cv.duration)
  {
    var n := |cs|;
    var cs' := cs + [cv];
    assert cs'[..n] == cs;
    forall i | 0 <= i < n
      ensures cs'[..i] == cs[..i]
    {
      assert cs'[..i] == cs'[..n][..i];
    }
    if cs != [] {
      assert cs[..n] == cs;
    }
  }

  /**
   * The index and runs after appending cv: unchanged for a zero-length run,
   * the last run lengthened when it holds the same value, else cv added with
   * its start where the wave ends. The result is again indexed and
   * compacted, and its expansion gains cv's copies at the end.
   */
  function AppendRun<T(==)>(starts: seq<nat>, cs: seq<CompactWaveValue<T>>, cv: CompactWaveValue<T>)
    : (r: (seq<nat>, seq<CompactWaveValue<T>>))
    requires Indexed(starts, cs) && Compacted(cs)
    ensures Indexed(r.0, r.1) && Compacted(r.1)
    ensures Expand(r.1) == Expand(cs) + Repeat(cv.value, cv.duration)
  {
    if cv.duration == 0 then
      assert Repeat(cv.value, 0) == [];
      (starts, cs)
    else if cs != [] && cs[|cs| - 1].value == cv.value then
      var last := cs[|cs| - 1];
      MergeLast(starts, cs, cv.duration);
      (starts, cs[..|cs| - 1] + [CompactWaveValue(last.value, last.duration + cv.duration)])
    else
      PushRun(starts, cs, cv);
      (starts + [TotalDuration(cs)], cs + [cv])
  }

  /** A later time is covered by the same run or a later one. */
  lemma {:induction false} FindOrdered<T>(starts: seq<nat>, cs: seq<CompactWaveValue<T>>, t1: nat, t2: nat)
    requires Indexed(starts, cs) && Compacted(cs) && t1 <= t2 < |Expand(cs)|
    ensures Find(starts, cs, t1).Some? && Find(starts, cs, t2).Some?
    ensures Find(starts, cs, t1).value.0 <= Find(starts, cs, t2).value.0
  {
    FindCovers(starts, cs, t1);
    FindCovers(starts, cs, t2);
    var i1, i2 := Find(starts, cs, t1).value.0, Find(starts, cs, t2).value.0;
    if i1 > i2 {
      StartsIncrease(starts, cs, i2, i1);
    }
  }

  /** Runs si..ei with the ends cut short are still compacted. */
  lemma {:induction false} CutCompacted<T>(cs: seq<CompactWaveValue<T>>, si: nat, ei: nat, slice: seq<CompactWaveValue<T>>)
    requires Compacted(cs) && si <= ei < |cs|
    requires |slice| == ei - si + 1
    requires forall k :: 0 <= k < |slice| ==> slice[k].duration > 0 && slice[k].value == cs[si + k].value
    ensures Compacted(slice)
  {
    forall k | 0 <= k < |slice| - 1
      ensures slice[k].value != slice[k + 1].value
    {
      assert cs[si + k].value != cs[si + k + 1].value;
    }
  }

  /**
   * The runs from offset so of run si to offset eo of run ei: one shortened
   * run when they are the same run, else the tail of run si, the runs
   * between and the head of run ei.
   */
  function Cut<T>(cs: seq<CompactWaveValue<T>>, si: nat, so: nat, ei: nat, eo: nat): seq<CompactWaveValue<T>>
    requires si <= ei < |cs| && so < cs[si].duration && eo < cs[ei].duration
    requires si == ei ==> so <= eo
  {
    if si == ei then [CompactWaveValue(cs[si].value, eo - so + 1)]
    else [CompactWaveValue(cs[si].value, cs[si].duration - so)] + cs[si + 1..ei] + [CompactWaveValue(cs[ei].value, eo + 1)]
  }

  /** The cut runs are compacted: each is non-empty and it holds the value of the run it comes from. */
  lemma {:induction false} CutIsCompacted<T>(cs: seq<CompactWaveValue<T>>, si: nat, so: nat, ei: nat, eo: nat)
    requires Compacted(cs)
    requires si <= ei < |cs| && so < cs[si].duration && eo < cs[ei].duration
    requires si == ei ==> so <= eo
    ensures Compacted(Cut(cs, si, so, ei, eo))
  {
    var slice := Cut(cs, si, so, ei, eo);
    if si < ei {
      var first := [CompactWaveValue(cs[si].value, cs[si].duration - so)];
      var mid := cs[si + 1..ei];
      var last := [CompactWaveValue(cs[ei].value, eo + 1)];
      assert slice == first + mid + last;
      forall k | 0 <= k < |slice|
        ensures slice[k].duration > 0 && slice[k].value == cs[si + k].value
      {
        if k == 0 {
        } else if k == |slice| - 1 {
          assert slice[k] == last[0];
        } else {
          assert slice[k] == mid[k - 1];
        }
      }
    }
    CutCompacted(cs, si, ei, slice);
  }

  /** The cut runs expand to the stretch of the wave between the two points. */
  lemma {:induction false} CutExpands<T>(cs: seq<CompactWaveValue<T>>, si: nat, so: nat, ei: nat, eo: nat)
    requires si <= ei < |cs| && so < cs[si].duration && eo < cs[ei].duration
    requires si == ei ==> so <= eo
    ensures TotalDuration(cs[..si]) + so <= TotalDuration(cs[..ei]) + eo < |Expand(cs)|
    ensures Expand(Cut(cs, si, so, ei, eo)) == Expand(cs)[TotalDuration(cs[..si]) + so..TotalDuration(cs[..ei]) + eo + 1]
  {
    if si == ei {
      RunPiece(cs, si, so, eo + 1);
    } else {
      SliceAcrossRuns(cs, si, so, ei, eo);
    }
  }

  /** Cutting between the runs find names for two times gives that stretch of the wave, compacted. */
  lemma {:induction false} CutBetween<T>(starts: seq<nat>, cs: seq<CompactWaveValue<T>>, startTime: nat, endTime: nat,
                                         si: nat, so: nat, ei: nat, eo: nat)
    requires Indexed(starts, cs) && Compacted(cs)
    requires si <= ei < |cs| && so < cs[si].duration && eo < cs[ei].duration
    requires starts[si] + so == startTime <= endTime == starts[ei] + eo < |Expand(cs)|
    ensures Expand(Cut(cs, si, so, ei, eo)) == Expand(cs)[startTime..endTime + 1]
    ensures Compacted(Cut(cs, si, so, ei, eo))
  {
    CutExpands(cs, si, so, ei, eo);
    CutIsCompacted(cs, si, so, ei, eo);
  }

  /**
   * Wave::slice as a value: the runs covering startTime..endTime inclusive,
   * None when either end is past the wave. The runs expand to exactly that
   * stretch of the wave and are compacted.
   */
  function SliceRuns<T(==)>(starts: seq<nat>, cs: seq<CompactWaveValue<T>>, startTime: nat, endTime: nat)
    : (r: Option<seq<CompactWaveValue<T>>>)
    requires Indexed(starts, cs) && Compacted(cs)
    requires startTime < |Expand(cs)| && endTime < |Expand(cs)| ==> startTime <= endTime
    ensures r.None? <==> startTime >= |Expand(cs)| || endTime >= |Expand(cs)|
    ensures r.Some? ==> Expand(r.value) == Expand(cs)[startTime..endTime + 1]
    ensures r.Some? ==> Compacted(r.value) && TotalDuration(r.value) == endTime - startTime + 1
  {
    if startTime >= |Expand(cs)| || endTime >= |Expand(cs)| then None
    else
      FindOrdered(starts, cs, startTime, endTime);
      FindCovers(starts, cs, startTime);
      FindCovers(starts, cs, endTime);
      var (si, so) := Find(starts, cs, startTime).value;
      var (ei, eo) := Find(starts, cs, endTime).value;
      CutBetween(starts, cs, startTime, endTime, si, so, ei, eo);
      Some(Cut(cs, si, so, ei, eo))
  }

  // ---------------------------------------------------------------------------
  // The wave object
  // ---------------------------------------------------------------------------

  class Wave {
    var signalName: string
    var width: nat
    var compactValues: seq<CompactWaveValue<BitVec>>
    var startTimes: seq<nat>

    /** The index matches the runs, and the runs are compacted. */
    predicate Valid()
      reads this
    {
      Indexed(startTimes, compactValues) && Compacted(compactValues)
    }

    /** From<dut::Signal>: the signal's name and width, and no values yet. */
    constructor FromSignal(signal: DutBindings.Signal)
      ensures signalName == signal.name && width == signal.width
      ensures compactValues == [] && startTimes == [] && Valid()
    {
      signalName := signal.name;
      width := signal.width;
      compactValues := [];
      startTimes := [];
    }

    /**
     * Wave::append: a zero-length run changes nothing; a run of the last
     * run's value lengthens it; any other run is added, starting where the
     * wave ends. Either way the wave gains `duration` copies of the value.
     */
    method Append(cv: CompactWaveValue<BitVec>)
      requires Valid()
      modifies this
      ensures Valid()
      ensures signalName == old(signalName) && width == old(width)
      ensures (startTimes, compactValues) == AppendRun(old(startTimes), old(compactValues), cv)
      ensures Expand(compactValues) == old(Expand(compactValues)) + Repeat(cv.value, cv.duration)
    {
      ghost var next := AppendRun(startTimes, compactValues, cv);
      if cv.duration == 0 {
        return;
      }
      var cs := compactValues;
      if cs != [] {
        var n := |cs|;
        var last := cs[n - 1];
        var lastStart := startTimes[|startTimes| - 1];
        if last.value == cv.value {
          compactValues := cs[..n - 1] + [CompactWaveValue(last.value, last.duration + cv.duration)];
          assert next == (startTimes, compactValues);
        } else {
          PushRun(startTimes, cs, cv);
          startTimes := startTimes + [lastStart + last.duration];
          compactValues := cs + [cv];
          assert next == (startTimes, compactValues);
        }
      } else {
        compactValues := cs + [cv];
        startTimes := startTimes + [0];
        assert next == (startTimes, compactValues);
      }
    }

    /**
     * Wave::slice: the runs covering times start..end inclusive, the first
     * and last cut to the range; None when either end is past the wave.
     * The source subtracts offsets in usize, so a start after the end is
     * excluded.
     */
    method Slice(startTime: nat, endTime: nat) returns (r: Option<seq<CompactWaveValue<BitVec>>>)
      requires Valid()
      requires startTime < |Expand(compactValues)| && endTime < |Expand(compactValues)| ==> startTime <= endTime
      ensures r == SliceRuns(startTimes, compactValues, startTime, endTime)
    {
      FindCovers(startTimes, compactValues, startTime);
      FindCovers(startTimes, compactValues, endTime);
      var startFound := Find(startTimes, compactValues, startTime);
      if startFound.None? {
        return None;
      }
      var endFound := Find(startTimes, compactValues, endTime);
      if endFound.None? {
        return None;
      }
      var (startIdx, startOffset) := startFound.value;
      var (endIdx, endOffset) := endFound.value;
      FindOrdered(startTimes, compactValues, startTime, endTime);
      var slice: seq<CompactWaveValue<BitVec>> := [];
      var firstValue := compactValues[startIdx].value;
      var firstDuration := compactValues[startIdx].duration - startOffset;
      var lastValue := compactValues[endIdx].value;
      var lastDuration := endOffset + 1;
      if startIdx != endIdx {
        slice := slice + [CompactWaveValue(firstValue, firstDuration)];
      } else {
        slice := slice + [CompactWaveValue(firstValue, endOffset - startOffset + 1)];
      }
      if endIdx - startIdx > 1 {
        slice := slice + compactValues[startIdx + 1..endIdx];
      }
      if endIdx != startIdx {
        slice := slice + [CompactWaveValue(lastValue, lastDuration)];
      }
      if startIdx < endIdx && endIdx - startIdx <= 1 {
        assert compactValues[startIdx + 1..endIdx] == [];
      }
      assert slice == Cut(compactValues, startIdx, startOffset, endIdx, endOffset);
      return Some(slice);
    }
  }
}
