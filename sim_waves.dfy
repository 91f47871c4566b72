/**
 * The waves the simulators record (oombak_local_sim/src/lib.rs,
 * oombak_sim/src/local_simulator.rs, oombak_sim/src/sim.rs): one wave per DUT
 * signal, each a list of runs (value, start, count) meaning `value` held for
 * `count` time units from time `start`. New values are read from the DUT
 * for every wave, in wave order, and appended up to the DUT's new time.
 */
module SimWaves {
  import opened Wrappers
  import opened Bits
  import DutBindings
  import WR = WaveResults
  import opened SimDut

  datatype ValueRun = ValueRun(value: BitVec, start: nat, count: nat)

  datatype Wave = Wave(signalName: string, width: nat, values: seq<ValueRun>)

  /** The runs as (value, duration) pairs, dropping the start times. */
  function Runs(values: seq<ValueRun>): (r: seq<WR.CompactWaveValue<BitVec>>)
    ensures |r| == |values|
    ensures forall i :: 0 <= i < |values| ==> r[i] == WR.CompactWaveValue(values[i].value, values[i].count)
  {
    seq(|values|, i requires 0 <= i < |values| => WR.CompactWaveValue(values[i].value, values[i].count))
  }

  /** The recorded value at every time unit from 0. */
  function Expand(values: seq<ValueRun>): seq<BitVec> {
    WR.Expand(Runs(values))
  }

  /** Each run starts where the runs before it end, and together they span [0, end). */
  predicate Tiles(values: seq<ValueRun>, end: nat) {
    && (forall i :: 0 <= i < |values| ==> values[i].start == |Expand(values[..i])|)
    && |Expand(values)| == end
  }

  /** A new run is only started for a value different from the last one. */
  predicate NeighboursDiffer(values: seq<ValueRun>) {
    forall i :: 0 <= i < |values| - 1 ==> values[i].value != values[i + 1].value
  }

  /** Every wave spans [0, end) and has no two neighbouring runs with the same value. */
  predicate WellFormed(waves: seq<Wave>, end: nat) {
    forall k :: 0 <= k < |waves| ==> Tiles(waves[k].values, end) && NeighboursDiffer(waves[k].values)
  }

  lemma {:induction false} ExpandSnoc(values: seq<ValueRun>, x: ValueRun)
    ensures Expand(values + [x]) == Expand(values) + WR.Repeat(x.value, x.count)
  {
    var r := Runs(values + [x]);
    assert r[..|r| - 1] == Runs(values);
    assert r[|r| - 1] == WR.CompactWaveValue(x.value, x.count);
  }

  /**
   * One wave extended by a value held for `duration` from `current`: a value
   * equal to the last run's lengthens that run, any other starts a new run.
   */
  function AppendValue(values: seq<ValueRun>, v: BitVec, current: nat, duration: nat): seq<ValueRun> {
    if values != [] && values[|values| - 1].value == v then
      var last := values[|values| - 1];
      values[..|values| - 1] + [last.(count := last.count + duration)]
    else
      values + [ValueRun(v, current, duration)]
  }

  /**
   * Appending records `duration` more units of `v` after what was recorded,
   * keeps the earlier runs, and keeps a wave spanning [0, current) spanning
   * [0, current + duration) with neighbouring runs still different.
   */
  lemma {:induction false} AppendValueSpec(values: seq<ValueRun>, v: BitVec, current: nat, duration: nat)
    ensures var r := AppendValue(values, v, current, duration);
      && Expand(r) == Expand(values) + WR.Repeat(v, duration)
      && (values != [] ==> r[..|values| - 1] == values[..|values| - 1])
      && |values| <= |r| <= |values| + 1
      && r != [] && r[|r| - 1].value == v
      && (Tiles(values, current) ==> Tiles(r, current + duration))
      && (NeighboursDiffer(values) ==> NeighboursDiffer(r))
  {
    if values != [] && values[|values| - 1].value == v {
      var n := |values|;
      assert values == values[..n - 1] + [values[n - 1]];
      MergeSpec(values[..n - 1], values[n - 1], current, duration);
    } else {
      PushSpec(values, ValueRun(v, current, duration));
    }
  }

  /** The last run lengthened by `duration`. */
  lemma {:induction false} MergeSpec(p: seq<ValueRun>, last: ValueRun, current: nat, duration: nat)
    ensures var r := p + [last.(count := last.count + duration)];
      && Expand(r) == Expand(p + [last]) + WR.Repeat(last.value, duration)
      && (Tiles(p + [last], current) ==> Tiles(r, current + duration))
      && (NeighboursDiffer(p + [last]) ==> NeighboursDiffer(r))
  {
    var values, r := p + [last], p + [last.(count := last.count + duration)];
    MergeExpand(p, last, duration);
    if Tiles(values, current) {
      MergeStarts(p, last, duration);
    }
    if NeighboursDiffer(values) {
      forall i | 0 <= i < |r| - 1
        ensures r[i].value != r[i + 1].value
      {
        assert r[i].value == values[i].value && r[i + 1].value == values[i + 1].value;
      }
    }
  }

  lemma {:induction false} MergeExpand(p: seq<ValueRun>, last: ValueRun, duration: nat)
    ensures Expand(p + [last.(count := last.count + duration)]) == Expand(p + [last]) + WR.Repeat(last.value, duration)
  {
    ExpandSnoc(p, last);
    ExpandSnoc(p, last.(count := last.count + duration));
    WR.RepeatSplit(last.value, last.count, duration);
  }

  /** Lengthening the last run moves no run's start. */
  lemma {:induction false} MergeStarts(p: seq<ValueRun>, last: ValueRun, duration: nat)
    requires forall i :: 0 <= i < |p| + 1 ==> (p + [last])[i].start == |Expand((p + [last])[..i])|
    ensures var r := p + [last.(count := last.count + duration)];
      forall i :: 0 <= i < |r| ==> r[i].start == |Expand(r[..i])|
  {
    var values, r := p + [last], p + [last.(count := last.count + duration)];
    forall i | 0 <= i < |r|
      ensures r[i].start == |Expand(r[..i])|
    {
      assert r[..i] == values[..i];
      assert r[i].start == values[i].start;
    }
  }

  /** A new run pushed after the others, starting at `current`. */
  lemma {:induction false} PushSpec(values: seq<ValueRun>, x: ValueRun)
    ensures var r := values + [x];
      && Expand(r) == Expand(values) + WR.Repeat(x.value, x.count)
      && (Tiles(values, x.start) ==> Tiles(r, x.start + x.count))
      && (NeighboursDiffer(values) && (values != [] ==> values[|values| - 1].value != x.value) ==> NeighboursDiffer(r))
  {
    var r := values + [x];
    ExpandSnoc(values, x);
    if Tiles(values, x.start) {
      forall i | 0 <= i < |r|
        ensures r[i].start == |Expand(r[..i])|
      {
        if i < |values| {
          assert r[..i] == values[..i];
        } else {
          assert r[..i] == values;
        }
      }
    }
  }

  /** Every wave extended by its new value (the values come one per wave, in wave order). */
  function AppendAll(waves: seq<Wave>, newValues: seq<BitVec>, current: nat, duration: nat): (r: seq<Wave>)
    requires |newValues| == |waves|
    ensures |r| == |waves|
  {
    seq(|waves|, k requires 0 <= k < |waves| =>
      waves[k].(values := AppendValue(waves[k].values, newValues[k], current, duration)))
  }

  /**
   * Appending to all waves keeps their names and widths, records each new
   * value for `duration` more units, and keeps the waves well formed.
   */
  lemma {:induction false} AppendAllSpec(waves: seq<Wave>, newValues: seq<BitVec>, current: nat, duration: nat)
    requires |newValues| == |waves|
    ensures var r := AppendAll(waves, newValues, current, duration);
      && (forall k :: 0 <= k < |waves| ==>
            && r[k].signalName == waves[k].signalName && r[k].width == waves[k].width
            && Expand(r[k].values) == Expand(waves[k].values) + WR.Repeat(newValues[k], duration))
      && (WellFormed(waves, current) ==> WellFormed(r, current + duration))
  {
    forall k | 0 <= k < |waves| {
      AppendValueSpec(waves[k].values, newValues[k], current, duration);
    }
  }

  /** The loop of append_new_values_to_simulation_result_until: each wave in turn extended by its new value. */
  method AppendEach(waves: seq<Wave>, newValues: seq<BitVec>, current: nat, duration: nat) returns (r: seq<Wave>)
    requires |newValues| == |waves|
    ensures r == AppendAll(waves, newValues, current, duration)
  {
    ghost var target := AppendAll(waves, newValues, current, duration);
    r := waves;
    var i := 0;
    while i < |r|
      invariant i <= |r| == |target|
      invariant forall j :: 0 <= j < i ==> r[j] == target[j]
      invariant forall j :: i <= j < |r| ==> r[j] == waves[j]
    {
      var w := r[i];
      r := r[i := w.(values := AppendValue(w.values, newValues[i], current, duration))];
      i := i + 1;
    }
  }

  /**
   * append_new_values_to_simulation_result_until on values: every wave's
   * signal read, then each wave extended by its new value from `from` up to
   * `end`; the first failing read is the error.
   */
  function AppendedUntil(host: Host, dut: Option<Dut>, waves: seq<Wave>, from: nat, end: nat): Result<seq<Wave>, SimError>
    requires from <= end
  {
    match QueryAll(host, dut, waves)
    case Err(e) => Err(e)
    case Ok(vs) => Ok(AppendAll(waves, vs, from, end - from))
  }

  /** reload: one wave per DUT signal, named and sized after it, with nothing recorded. */
  function WavesFrom(signals: seq<DutBindings.Signal>): (r: seq<Wave>)
    ensures |r| == |signals| && WellFormed(r, 0)
    ensures forall k :: 0 <= k < |signals| ==>
      r[k].signalName == signals[k].name && r[k].width == signals[k].width && r[k].values == []
  {
    seq(|signals|, k requires 0 <= k < |signals| => Wave(signals[k].name, signals[k].width, []))
  }

  /**
   * The new values of all waves: each wave's signal read from the DUT, in
   * wave order; the first failing read is the error.
   */
  function QueryAll(host: Host, dut: Option<Dut>, waves: seq<Wave>): (r: Result<seq<BitVec>, SimError>)
    ensures r.Ok? ==> |r.value| == |waves|
  {
    if waves == [] then Ok([])
    else
      match QueryAll(host, dut, waves[..|waves| - 1])
      case Err(e) => Err(e)
      case Ok(vs) =>
        match DutGet(host, dut, waves[|waves| - 1].signalName)
        case Err(e) => Err(e)
        case Ok(v) => Ok(vs + [v])
  }

  /**
   * The query succeeds exactly when every read does, giving one value per
   * wave; otherwise its error is that of the first failing read.
   */
  lemma {:induction false} QueryAllSpec(host: Host, dut: Option<Dut>, waves: seq<Wave>)
    ensures QueryAll(host, dut, waves).Ok? <==> forall k :: 0 <= k < |waves| ==> DutGet(host, dut, waves[k].signalName).Ok?
    ensures QueryAll(host, dut, waves).Ok? ==>
      && |QueryAll(host, dut, waves).value| == |waves|
      && forall k :: 0 <= k < |waves| ==> QueryAll(host, dut, waves).value[k] == DutGet(host, dut, waves[k].signalName).value
    ensures QueryAll(host, dut, waves).Err? ==>
      exists i :: (0 <= i < |waves| && DutGet(host, dut, waves[i].signalName) == Err(QueryAll(host, dut, waves).error)
        && forall k :: 0 <= k < i ==> DutGet(host, dut, waves[k].signalName).Ok?)
    decreases |waves|
  {
    if waves != [] {
      var n := |waves|;
      var p := waves[..n - 1];
      QueryAllSpec(host, dut, p);
      assert forall k :: 0 <= k < n - 1 ==> p[k] == waves[k];
    }
  }

  /** A query that fails on a prefix of the waves fails the same way on all of them. */
  lemma {:induction false} QueryAllPrefixErr(host: Host, dut: Option<Dut>, waves: seq<Wave>, i: nat)
    requires i <= |waves| && QueryAll(host, dut, waves[..i]).Err?
    ensures QueryAll(host, dut, waves) == QueryAll(host, dut, waves[..i])
    decreases |waves| - i
  {
    if i < |waves| {
      assert waves[..i + 1][..i] == waves[..i];
      QueryAllPrefixErr(host, dut, waves, i + 1);
    } else {
      assert waves[..i] == waves;
    }
  }

  /** query_new_values: read every wave's signal in order, stopping at the first error. */
  method QueryNewValues(host: Host, dut: Option<Dut>, waves: seq<Wave>) returns (r: Result<seq<BitVec>, SimError>)
    ensures r == QueryAll(host, dut, waves)
  {
    var newValues: seq<BitVec> := [];
    var i := 0;
    while i < |waves|
      invariant i <= |waves|
      invariant QueryAll(host, dut, waves[..i]) == Ok(newValues)
    {
      assert waves[..i + 1][..i] == waves[..i];
      var v := DutGet(host, dut, waves[i].signalName);
      if v.Err? {
        QueryAllPrefixErr(host, dut, waves, i + 1);
        return Err(v.error);
      }
      newValues := newValues + [v.value];
      i := i + 1;
    }
    assert waves[..i] == waves;
    return Ok(newValues);
  }

  /** The reads, then the loop over the waves. */
  method AppendUntil(host: Host, dut: Option<Dut>, waves: seq<Wave>, from: nat, end: nat) returns (r: Result<seq<Wave>, SimError>)
    requires from <= end
    ensures r == AppendedUntil(host, dut, waves, from, end)
  {
    var newValues := QueryNewValues(host, dut, waves);
    if newValues.Err? {
      return Err(newValues.error);
    }
    var extended := AppendEach(waves, newValues.value, from, end - from);
    r := Ok(extended);
  }
}
