/**
 * The local simulator (oombak_local_sim/src/lib.rs): the DUT state behind
 * a reload guard, the simulation result the run loop extends, and the
 * load and probe-modification sequences that rebuild both.
 *
 * The run loop is modelled as corrected (each step asks for the time still
 * missing); the loop as written is `AsWrittenRunTimes`.
 */
module LocalSim {
  import opened Wrappers
  import opened Bits
  import DutBindings
  import DutShim
  import WR = WaveResults
  import ProbeList
  import opened SimDut
  import opened SimWaves

  /** The loaded design: DUT handle, probe, source path, generated build, and the reload flag. */
  class DutState {
    var dut: Option<Dut>
    var probe: Option<Probe>
    var path: Option<string>
    var tempGenDir: Option<TempGenDir>
    var willBeReloaded: bool

    /** Nothing loaded, no reload under way. */
    constructor()
      ensures dut.None? && probe.None? && path.None? && tempGenDir.None? && !willBeReloaded
    {
      dut := None;
      probe := None;
      path := None;
      tempGenDir := None;
      willBeReloaded := false;
    }

    /** run: the DUT's clock moves to the time its library reports, which is returned. */
    method Run(host: Host, duration: nat) returns (r: Result<nat, SimError>)
      modifies this
      ensures match DutRun(host, old(dut), duration)
        case Ok(d) => r == Ok(d.time) && dut == Some(d)
        case Err(e) => r == Err(e) && dut == old(dut)
      ensures probe == old(probe) && path == old(path) && tempGenDir == old(tempGenDir)
      ensures willBeReloaded == old(willBeReloaded)
    {
      var next := DutRun(host, dut, duration);
      if next.Err? {
        return Err(next.error);
      }
      dut := Some(next.value);
      r := Ok(next.value.time);
    }

    function Get(host: Host, name: string): Result<BitVec, SimError>
      reads this
    {
      DutGet(host, dut, name)
    }

    /** set: the value is written to the DUT, which records it when its library accepts it. */
    method Set(host: Host, name: string, value: BitVec) returns (r: Result<(), SimError>)
      modifies this
      ensures match DutSet(host, old(dut), name, value)
        case Ok(d) => r == Ok(()) && dut == Some(d)
        case Err(e) => r == Err(e) && dut == old(dut)
      ensures probe == old(probe) && path == old(path) && tempGenDir == old(tempGenDir)
      ensures willBeReloaded == old(willBeReloaded)
    {
      var written := DutSet(host, dut, name, value);
      if written.Err? {
        return Err(written.error);
      }
      dut := Some(written.value);
      r := Ok(());
    }

    function Query(host: Host): Result<seq<DutBindings.Signal>, SimError>
      reads this
    {
      DutQuery(host, dut)
    }

    function ProbeOf(): Result<Probe, SimError>
      reads this
    {
      match probe
      case Some(p) => Ok(p)
      case None => Err(DutNotLoaded)
    }

    function PathOf(): Result<string, SimError>
      reads this
    {
      match path
      case Some(p) => Ok(p)
      case None => Err(DutNotLoaded)
    }

    /** release_resources: the DUT and its build are dropped. */
    method ReleaseResources()
      modifies this
      ensures dut.None? && tempGenDir.None?
      ensures probe == old(probe) && path == old(path) && willBeReloaded == old(willBeReloaded)
    {
      dut := None;
      tempGenDir := None;
    }

    /**
     * reload: the new build replaces the old and its library is loaded; only
     * when that load succeeds are the path and probe replaced and the reload
     * flag cleared. A failed load leaves no DUT.
     */
    method Reload(host: Host, svPath: string, gen: TempGenDir, newProbe: Probe) returns (r: Result<(), SimError>)
      modifies this
      ensures tempGenDir == Some(gen)
      ensures match OpenDut(host, gen.libPath)
        case Ok(d) => r == Ok(()) && dut == Some(d) && path == Some(svPath) && probe == Some(newProbe) && !willBeReloaded
        case Err(e) => r == Err(e) && dut.None? && path == old(path) && probe == old(probe) && willBeReloaded == old(willBeReloaded)
    {
      ReleaseResources();
      tempGenDir := Some(gen);
      var opening := OpenDut(host, gen.libPath);
      if opening.Err? {
        return Err(opening.error);
      }
      dut := Some(opening.value);
      path := Some(svPath);
      probe := Some(newProbe);
      willBeReloaded := false;
      r := Ok(());
    }

    /** reload_path_unchanged: as `Reload`, but the source path is kept. */
    method ReloadPathUnchanged(host: Host, gen: TempGenDir, newProbe: Probe) returns (r: Result<(), SimError>)
      modifies this
      ensures tempGenDir == Some(gen) && path == old(path)
      ensures match OpenDut(host, gen.libPath)
        case Ok(d) => r == Ok(()) && dut == Some(d) && probe == Some(newProbe) && !willBeReloaded
        case Err(e) => r == Err(e) && dut.None? && probe == old(probe) && willBeReloaded == old(willBeReloaded)
    {
      ReleaseResources();
      tempGenDir := Some(gen);
      var opening := OpenDut(host, gen.libPath);
      if opening.Err? {
        return Err(opening.error);
      }
      dut := Some(opening.value);
      probe := Some(newProbe);
      willBeReloaded := false;
      r := Ok(());
    }
  }

  /**
   * Every DutState accessor fails with DutNotLoaded exactly when what it
   * needs (the DUT, the probe, the path) is missing.
   */
  lemma {:induction false} AccessorsNeedState(s: DutState, host: Host, name: string, value: BitVec)
    ensures s.Get(host, name) == Err(DutNotLoaded) <==> s.dut.None?
    ensures DutSet(host, s.dut, name, value) == Err(DutNotLoaded) <==> s.dut.None?
    ensures s.Query(host) == Err(DutNotLoaded) <==> s.dut.None?
    ensures s.ProbeOf() == Err(DutNotLoaded) <==> s.probe.None?
    ensures s.ProbeOf().Ok? ==> Some(s.ProbeOf().value) == s.probe
    ensures s.PathOf() == Err(DutNotLoaded) <==> s.path.None?
    ensures s.PathOf().Ok? ==> Some(s.PathOf().value) == s.path
  {
    NotLoadedIffNoDut(host, s.dut, name, value, 0);
  }

  /** The library at `libPath` moves its clock forward, and never past what was asked. */
  ghost predicate Advances(host: Host, libPath: string) {
    forall t: nat, inputs: seq<Input>, d: nat :: 0 < d && host.step(libPath, t, inputs, d).Ok? ==> t < host.step(libPath, t, inputs, d).value <= t + d
  }

  /** The waves `ws` are the waves `w0` with possibly more recorded: same signals, same history so far. */
  ghost predicate Extends(w0: seq<Wave>, ws: seq<Wave>) {
    && |ws| == |w0|
    && forall k :: 0 <= k < |ws| ==> ws[k].signalName == w0[k].signalName && Expand(w0[k].values) <= Expand(ws[k].values)
  }

  lemma {:induction false} ExtendsRefl(ws: seq<Wave>)
    ensures Extends(ws, ws)
  {
  }

  lemma {:induction false} ExtendsTrans(w0: seq<Wave>, w1: seq<Wave>, w2: seq<Wave>)
    requires Extends(w0, w1) && Extends(w1, w2)
    ensures Extends(w0, w2)
  {
  }

  /** Appending to waves that extend `w0` gives waves that still extend it. */
  lemma {:induction false} AppendKeepsHistory(w0: seq<Wave>, before: seq<Wave>, after: seq<Wave>, newValues: seq<BitVec>, from: nat, duration: nat)
    requires Extends(w0, before) && |newValues| == |before|
    requires after == AppendAll(before, newValues, from, duration)
    ensures Extends(w0, after)
  {
    AppendAllSpec(before, newValues, from, duration);
  }

  /** Appending to all waves keeps their history, and keeps well-formed waves well formed up to the new end. */
  lemma {:induction false} AppendAllExtends(w0: seq<Wave>, newValues: seq<BitVec>, from: nat, end: nat)
    requires |newValues| == |w0| && from <= end
    ensures Extends(w0, AppendAll(w0, newValues, from, end - from))
    ensures WellFormed(w0, from) ==> WellFormed(AppendAll(w0, newValues, from, end - from), end)
  {
    var duration := end - from;
    ExtendsRefl(w0);
    AppendKeepsHistory(w0, w0, AppendAll(w0, newValues, from, duration), newValues, from, duration);
    AppendAllSpec(w0, newValues, from, duration);
    assert from + duration == end;
  }

  /**
   * A successful append keeps every wave's history, and keeps waves that
   * were well formed up to `from` well formed up to `end`.
   */
  lemma {:induction false} AppendedUntilSpec(host: Host, dut: Option<Dut>, w0: seq<Wave>, from: nat, end: nat)
    requires from <= end
    ensures Extends(w0, w0)
    ensures var a := AppendedUntil(host, dut, w0, from, end);
      a.Ok? ==> Extends(w0, a.value) && (WellFormed(w0, from) ==> WellFormed(a.value, end))
  {
    ExtendsRefl(w0);
    var q := QueryAll(host, dut, w0);
    if q.Ok? {
      AppendAllExtends(w0, q.value, from, end);
      assert AppendedUntil(host, dut, w0, from, end) == Ok(AppendAll(w0, q.value, from, end - from));
    }
  }

  /** What a run from time `t` to `target` may assume: the DUT's clock is `t` and its library advances. */
  ghost predicate RunnableFrom(host: Host, dut: Option<Dut>, t: nat, target: nat) {
    t <= target && (dut.Some? ==> dut.value.time == t && Advances(host, dut.value.libPath))
  }

  /**
   * What the corrected run loop records from time `t` up to `target`: the
   * DUT is run for the time still missing, and the outcome is then as
   * `RunAfter` says.
   */
  ghost function RunFrom(host: Host, dut: Option<Dut>, waves: seq<Wave>, t: nat, target: nat): Result<(Option<Dut>, seq<Wave>), SimError>
    requires RunnableFrom(host, dut, t, target)
    decreases target - t, 1
  {
    if t == target then Ok((dut, waves)) else RunAfter(host, DutRun(host, dut, target - t), waves, t, target)
  }

  /**
   * A run step's outcome from time `t`: a failed run is the outcome;
   * otherwise every wave is extended by the DUT's reading up to the time
   * reached, a failed read being the outcome, and the run goes on from
   * there.
   */
  ghost function RunAfter(host: Host, run: Result<Dut, SimError>, waves: seq<Wave>, t: nat, target: nat): Result<(Option<Dut>, seq<Wave>), SimError>
    requires run.Ok? ==> t < run.value.time <= target && Advances(host, run.value.libPath)
    decreases target - t, 0
  {
    match run
    case Err(e) => Err(e)
    case Ok(d) =>
      match AppendedUntil(host, Some(d), waves, t, d.time)
      case Err(e) => Err(e)
      case Ok(ws) => RunFrom(host, Some(d), ws, d.time, target)
  }

  /** The run from `t` to `target` ends as `outcome` says. */
  ghost predicate RunOutcome(host: Host, dut: Option<Dut>, waves: seq<Wave>, t: nat, target: nat, outcome: Result<(Option<Dut>, seq<Wave>), SimError>) {
    RunnableFrom(host, dut, t, target) && RunFrom(host, dut, waves, t, target) == outcome
  }

  /**
   * A run that succeeds leaves the DUT's clock at `target`, keeps every
   * wave's history, and leaves waves recorded up to `t` recorded up to
   * `target`.
   */
  lemma {:induction false} RunFromSpec(host: Host, dut: Option<Dut>, waves: seq<Wave>, t: nat, target: nat)
    requires RunnableFrom(host, dut, t, target)
    ensures var r := RunFrom(host, dut, waves, t, target);
      r.Ok? ==> && (r.value.0.Some? ==> r.value.0.value.time == target)
                && Extends(waves, r.value.1)
                && (WellFormed(waves, t) ==> WellFormed(r.value.1, target))
    decreases target - t
  {
    ExtendsRefl(waves);
    if t < target {
      var run := DutRun(host, dut, target - t);
      assert RunFrom(host, dut, waves, t, target) == RunAfter(host, run, waves, t, target);
      if run.Ok? {
        var d := run.value;
        AppendedUntilSpec(host, Some(d), waves, t, d.time);
        var a := AppendedUntil(host, Some(d), waves, t, d.time);
        if a.Ok? {
          RunFromSpec(host, Some(d), a.value, d.time, target);
          var r := RunFrom(host, Some(d), a.value, d.time, target);
          if r.Ok? {
            ExtendsTrans(waves, a.value, r.value.1);
          }
        }
      }
    }
  }

  /** The simulation result: the time reached and one wave per DUT signal. */
  class SimulationResult {
    var currentTime: nat
    var waves: seq<Wave>

    /** Every wave records exactly the times before `currentTime`. */
    predicate Valid()
      reads this
    {
      WellFormed(waves, currentTime)
    }

    /** The default result: time 0, no waves. */
    constructor()
      ensures currentTime == 0 && waves == [] && Valid()
    {
      currentTime := 0;
      waves := [];
    }

    /**
     * append_new_values_to_simulation_result_until: read every wave's
     * signal; if a read fails nothing changes; otherwise each wave is
     * extended by its new value up to `endTime`, which becomes the current
     * time.
     */
    method AppendNewValuesUntil(host: Host, endTime: nat, dutState: DutState) returns (r: Result<(), SimError>)
      requires Valid() && currentTime <= endTime
      modifies this
      ensures Valid() && Extends(old(waves), waves)
      ensures match AppendedUntil(host, dutState.dut, old(waves), old(currentTime), endTime)
        case Err(e) => r == Err(e) && waves == old(waves) && currentTime == old(currentTime)
        case Ok(ws) => r == Ok(()) && waves == ws && currentTime == endTime
    {
      var appended := AppendUntil(host, dutState.dut, waves, currentTime, endTime);
      AppendedUntilSpec(host, dutState.dut, waves, currentTime, endTime);
      if appended.Err? {
        return Err(appended.error);
      }
      waves, currentTime := appended.value, endTime;
      r := Ok(());
    }

    /**
     * reload_simulation_result: back to the default result, then one empty
     * wave per signal the DUT reports; if the signal list cannot be read the
     * result stays empty.
     */
    method Reload(host: Host, dutState: DutState) returns (r: Result<(), SimError>)
      modifies this
      ensures Valid() && currentTime == 0
      ensures match DutQuery(host, dutState.dut)
        case Ok(signals) => r == Ok(()) && waves == WavesFrom(signals)
        case Err(e) => r == Err(e) && waves == []
    {
      currentTime := 0;
      waves := [];
      var signals := dutState.Query(host);
      if signals.Err? {
        return Err(signals.error);
      }
      waves := WavesFrom(signals.value);
      r := Ok(());
    }

    /**
     * run, with each step asking for the time still missing: the result
     * reaches exactly `duration` more time units, keeping everything recorded
     * before, provided the DUT's clock is the result's and its library moves
     * forward without passing what it is asked for.
     */
    method Run(host: Host, duration: nat, dutState: DutState) returns (r: Result<nat, SimError>)
      requires Valid()
      requires dutState.dut.Some? ==> dutState.dut.value.time == currentTime && Advances(host, dutState.dut.value.libPath)
      modifies this, dutState
      ensures Valid()
      ensures r.Ok? ==> r.value == currentTime == old(currentTime) + duration
      ensures r.Ok? ==> dutState.dut.Some? ==> dutState.dut.value.time == currentTime
      ensures Extends(old(waves), waves)
      ensures r.Ok? ==> RunOutcome(host, old(dutState.dut), old(waves), old(currentTime), old(currentTime) + duration, Ok((dutState.dut, waves)))
      ensures r.Err? ==> RunOutcome(host, old(dutState.dut), old(waves), old(currentTime), old(currentTime) + duration, Err(r.error))
      ensures dutState.probe == old(dutState.probe) && dutState.path == old(dutState.path)
      ensures dutState.tempGenDir == old(dutState.tempGenDir) && dutState.willBeReloaded == old(dutState.willBeReloaded)
    {
      var target := currentTime + duration;
      ghost var outcome := RunFrom(host, dutState.dut, waves, currentTime, target);
      ExtendsRefl(waves);
      while currentTime != target
        invariant Valid() && old(currentTime) <= currentTime <= target
        invariant dutState.dut.Some? ==> dutState.dut.value.time == currentTime && Advances(host, dutState.dut.value.libPath)
        invariant Extends(old(waves), waves)
        invariant outcome == RunFrom(host, dutState.dut, waves, currentTime, target)
        invariant dutState.probe == old(dutState.probe) && dutState.path == old(dutState.path)
        invariant dutState.tempGenDir == old(dutState.tempGenDir) && dutState.willBeReloaded == old(dutState.willBeReloaded)
        decreases target - currentTime
      {
        ghost var before := waves;
        var stepped := Step(host, target, dutState);
        ExtendsTrans(old(waves), before, waves);
        if stepped.Err? {
          return Err(stepped.error);
        }
      }
      assert outcome == Ok((dutState.dut, waves));
      r := Ok(currentTime);
    }

    /**
     * One step of the run loop: the DUT is asked for the time still missing
     * to `target`, and every wave is extended up to the time it reaches.
     */
    method Step(host: Host, target: nat, dutState: DutState) returns (r: Result<(), SimError>)
      requires Valid() && currentTime < target
      requires dutState.dut.Some? ==> dutState.dut.value.time == currentTime && Advances(host, dutState.dut.value.libPath)
      modifies this, dutState
      ensures Valid()
      ensures Extends(old(waves), waves)
      ensures r.Ok? ==> old(currentTime) < currentTime <= target
      ensures r.Ok? ==> dutState.dut.Some? && dutState.dut.value.time == currentTime
      ensures r.Ok? ==> Advances(host, dutState.dut.value.libPath)
      ensures r.Ok? ==> AppendedUntil(host, dutState.dut, old(waves), old(currentTime), currentTime) == Ok(waves)
      ensures RunFrom(host, old(dutState.dut), old(waves), old(currentTime), target)
              == if r.Ok? then RunFrom(host, dutState.dut, waves, currentTime, target) else Err(r.error)
      ensures dutState.probe == old(dutState.probe) && dutState.path == old(dutState.path)
      ensures dutState.tempGenDir == old(dutState.tempGenDir) && dutState.willBeReloaded == old(dutState.willBeReloaded)
    {
      ExtendsRefl(waves);
      ghost var run := DutRun(host, dutState.dut, target - currentTime);
      assert RunFrom(host, dutState.dut, waves, currentTime, target) == RunAfter(host, run, waves, currentTime, target);
      var reached := dutState.Run(host, target - currentTime);
      assert waves == old(waves);
      if reached.Err? {
        return Err(reached.error);
      }
      assert dutState.dut == Some(run.value);
      var appended := AppendNewValuesUntil(host, reached.value, dutState);
      if appended.Err? {
        return Err(appended.error);
      }
      r := Ok(());
    }
  }

  /**
   * The times the run loop as written reaches after k steps: every step asks
   * the DUT for the whole `duration` again, not for what is still missing.
   */
  function AsWrittenRunTimes(step: (nat, nat) -> nat, start: nat, duration: nat, k: nat): nat {
    if k == 0 then start else step(AsWrittenRunTimes(step, start, duration, k - 1), duration)
  }

  /** A DUT whose one pending event is at time 5: its run stops there once (DutShim.NextTime). */
  function PendingAtFive(t: nat, d: nat): nat {
    DutShim.NextTime(t, d, t < 5, 5)
  }

  lemma {:induction false} AsWrittenTimesAtFive(k: nat)
    ensures AsWrittenRunTimes(PendingAtFive, 0, 10, k) == if k == 0 then 0 else 10 * k - 5
  {
    if k > 0 {
      AsWrittenTimesAtFive(k - 1);
    }
  }

  /**
   * Running for 10 from time 0 with that DUT, as written: the loop reaches
   * 0, 5, 15, 25, ... and never the target 10, so it does not end.
   */
  lemma {:induction false} RunOvershoots()
    ensures forall k: nat :: AsWrittenRunTimes(PendingAtFive, 0, 10, k) != 10
  {
    forall k: nat
      ensures AsWrittenRunTimes(PendingAtFive, 0, 10, k) != 10
    {
      AsWrittenTimesAtFive(k);
    }
  }

  /**
   * The same DUT moves forward without passing what it is asked for, so the
   * corrected `SimulationResult.Run` reaches the target with it (0, 5, 10).
   */
  lemma {:induction false} PendingAtFiveAdvances(host: Host, libPath: string)
    requires forall t: nat, inputs: seq<Input>, d: nat :: host.step(libPath, t, inputs, d) == Ok(PendingAtFive(t, d))
    ensures Advances(host, libPath)
  {
  }

  /**
   * get_modified_probe: on a copy of the probe, add every name to add, then
   * remove every name to remove, stopping at the first error.
   */
  method GetModifiedProbe(probe: Probe, mods: ProbePointsModification, remove: (Probe, string) -> Result<Probe, ProbeList.ProbeError>)
    returns (r: Result<Probe, SimError>)
    ensures r == ModifiedProbe(probe, mods, remove)
  {
    var newProbe := probe;
    var i := 0;
    while i < |mods.toAdd|
      invariant i <= |mods.toAdd|
      invariant AddAll(probe, mods.toAdd) == AddAll(newProbe, mods.toAdd[i..])
    {
      assert mods.toAdd[i..][1..] == mods.toAdd[i + 1..];
      var (after, err) := ProbeList.AddSpec(newProbe.root, newProbe.probed, mods.toAdd[i]);
      if err.Some? {
        return Err(OombakProbe(err.value));
      }
      newProbe := newProbe.(probed := after);
      i := i + 1;
    }
    assert mods.toAdd[i..] == [];
    i := 0;
    while i < |mods.toRemove|
      invariant i <= |mods.toRemove|
      invariant Modified(probe, mods, remove) == RemoveAll(newProbe, mods.toRemove[i..], remove)
    {
      assert mods.toRemove[i..][1..] == mods.toRemove[i + 1..];
      var removed := remove(newProbe, mods.toRemove[i]);
      if removed.Err? {
        return Err(OombakProbe(removed.error));
      }
      newProbe := removed.value;
      i := i + 1;
    }
    assert mods.toRemove[i..] == [];
    r := Ok(newProbe);
  }

  /** The local simulator: its simulation result and its DUT state. */
  class LocalSimulator {
    const result: SimulationResult
    const dutState: DutState

    predicate Valid()
      reads this, result
    {
      result.Valid()
    }

    /**
     * The result's clock is the loaded DUT's clock. A load makes it so; a run
     * that fails after the DUT has moved leaves the two apart.
     */
    predicate Synced()
      reads this, result, dutState
    {
      dutState.dut.Some? ==> dutState.dut.value.time == result.currentTime
    }

    constructor()
      ensures Valid() && Synced() && fresh(result) && fresh(dutState)
      ensures result.currentTime == 0 && result.waves == []
      ensures dutState.dut.None? && dutState.probe.None? && dutState.path.None? && !dutState.willBeReloaded
    {
      result := new SimulationResult();
      dutState := new DutState();
    }

    /** run (serve_run): the corrected run loop on this simulator's result and DUT. */
    method Run(host: Host, duration: nat) returns (r: Result<nat, SimError>)
      requires Valid() && Synced()
      requires dutState.dut.Some? ==> Advances(host, dutState.dut.value.libPath)
      modifies result, dutState
      ensures Valid() && (r.Ok? ==> Synced())
      ensures r.Ok? ==> r.value == result.currentTime == old(result.currentTime) + duration
      ensures Extends(old(result.waves), result.waves)
      ensures r.Ok? ==> RunOutcome(host, old(dutState.dut), old(result.waves), old(result.currentTime), old(result.currentTime) + duration,
                                   Ok((dutState.dut, result.waves)))
      ensures r.Err? ==> RunOutcome(host, old(dutState.dut), old(result.waves), old(result.currentTime), old(result.currentTime) + duration,
                                    Err(r.error))
    {
      r := result.Run(host, duration, dutState);
    }

    /**
     * serve_set_signal: the value is written to the DUT; the clock and the
     * result stay as they are.
     */
    method SetSignal(host: Host, name: string, value: BitVec) returns (r: Result<(), SimError>)
      requires Valid()
      modifies dutState
      ensures Valid() && (old(Synced()) ==> Synced())
      ensures match DutSet(host, old(dutState.dut), name, value)
        case Ok(d) => r == Ok(()) && dutState.dut == Some(d) && d.time == old(dutState.dut).value.time
        case Err(e) => r == Err(e) && dutState.dut == old(dutState.dut)
      ensures dutState.probe == old(dutState.probe) && dutState.path == old(dutState.path)
      ensures dutState.tempGenDir == old(dutState.tempGenDir) && dutState.willBeReloaded == old(dutState.willBeReloaded)
    {
      r := dutState.Set(host, name, value);
    }

    /**
     * load_dut: refused with DutIsLoading while a reload is under way;
     * otherwise the reload flag is set, the design at `path` is built, loaded
     * in place of the old one, and the result reset to one empty wave per
     * signal. The flag is cleared only by a successful load, so a failed
     * build leaves it set and every later load is refused.
     */
    method LoadDut(host: Host, path: string) returns (r: Result<LoadedDut, SimError>)
      requires Valid()
      modifies result, dutState
      ensures Valid()
      ensures old(dutState.willBeReloaded) ==> r == Err(DutIsLoading) && unchanged(result, dutState)
      ensures !old(dutState.willBeReloaded) && host.build(path).Err? ==>
        && r == Err(host.build(path).error) && dutState.willBeReloaded
        && dutState.dut == old(dutState.dut) && dutState.probe == old(dutState.probe)
        && dutState.path == old(dutState.path) && dutState.tempGenDir == old(dutState.tempGenDir)
        && unchanged(result)
      ensures !dutState.willBeReloaded <==>
        && !old(dutState.willBeReloaded) && host.build(path).Ok?
        && host.open(host.build(path).value.0.libPath).Ok?
      ensures r.Ok? ==>
        && host.build(path).Ok?
        && var (gen, p) := host.build(path).value;
        && r.value == LoadedDutFrom(p)
        && dutState.dut == Some(Dut(gen.libPath, 0, [])) && dutState.path == Some(path)
        && dutState.probe == Some(p) && dutState.tempGenDir == Some(gen)
        && result.currentTime == 0 && DutQuery(host, dutState.dut).Ok?
        && result.waves == WavesFrom(DutQuery(host, dutState.dut).value)
    {
      if dutState.willBeReloaded {
        return Err(DutIsLoading);
      }
      dutState.willBeReloaded := true;
      var built := host.build(path);
      if built.Err? {
        return Err(built.error);
      }
      var (gen, p) := built.value;
      var reloaded := dutState.Reload(host, path, gen, p);
      if reloaded.Err? {
        return Err(reloaded.error);
      }
      var reset := result.Reload(host, dutState);
      if reset.Err? {
        return Err(reset.error);
      }
      r := Ok(LoadedDutFrom(p));
    }

    /**
     * modify_probe_points: refused with DutIsLoading while a reload is under
     * way; otherwise the reload flag is set, the modified probe is computed
     * from the current one, the design is rebuilt with it from the same path
     * and loaded, and the result is reset. The path never changes, and the
     * flag is cleared only by a successful load.
     */
    method ModifyProbePoints(host: Host, mods: ProbePointsModification) returns (r: Result<LoadedDut, SimError>)
      requires Valid()
      modifies result, dutState
      ensures Valid()
      ensures old(dutState.willBeReloaded) ==> r == Err(DutIsLoading) && unchanged(result, dutState)
      ensures dutState.path == old(dutState.path)
      ensures !old(dutState.willBeReloaded) && old(dutState.probe).None? ==>
        r == Err(DutNotLoaded) && dutState.willBeReloaded && unchanged(result)
      ensures !old(dutState.willBeReloaded) && old(dutState.probe).Some?
              && ModifiedProbe(old(dutState.probe).value, mods, host.remove).Err? ==>
        && r == Err(ModifiedProbe(old(dutState.probe).value, mods, host.remove).error)
        && dutState.willBeReloaded && dutState.probe == old(dutState.probe)
        && dutState.dut == old(dutState.dut) && unchanged(result)
      ensures !dutState.willBeReloaded ==>
        && !old(dutState.willBeReloaded) && dutState.tempGenDir.Some?
        && dutState.dut == Some(Dut(dutState.tempGenDir.value.libPath, 0, []))
      ensures r.Ok? ==>
        && old(dutState.probe).Some? && old(dutState.path).Some?
        && var p := ModifiedProbe(old(dutState.probe).value, mods, host.remove);
        && p.Ok? && r.value == LoadedDutFrom(p.value) && dutState.probe == Some(p.value)
        && host.buildWithProbe(old(dutState.path).value, p.value).Ok?
        && dutState.tempGenDir == Some(host.buildWithProbe(old(dutState.path).value, p.value).value)
        && result.currentTime == 0 && DutQuery(host, dutState.dut).Ok?
        && result.waves == WavesFrom(DutQuery(host, dutState.dut).value)
    {
      if dutState.willBeReloaded {
        return Err(DutIsLoading);
      }
      dutState.willBeReloaded := true;
      var probe := dutState.ProbeOf();
      if probe.Err? {
        return Err(probe.error);
      }
      var newProbe := GetModifiedProbe(probe.value, mods, host.remove);
      if newProbe.Err? {
        return Err(newProbe.error);
      }
      var path := dutState.PathOf();
      if path.Err? {
        return Err(path.error);
      }
      var gen := host.buildWithProbe(path.value, newProbe.value);
      if gen.Err? {
        return Err(gen.error);
      }
      var reloaded := dutState.ReloadPathUnchanged(host, gen.value, newProbe.value);
      if reloaded.Err? {
        return Err(reloaded.error);
      }
      var reset := result.Reload(host, dutState);
      if reset.Err? {
        return Err(reset.error);
      }
      r := Ok(LoadedDutFrom(newProbe.value));
    }
  }
}
