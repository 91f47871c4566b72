/**
 * The request server of oombak_sim/src/sim.rs: one object holding the DUT,
 * probe, source path, build, simulation time and result, serving one
 * request at a time and notifying its listeners with responses tagged by
 * the id of the request being served. Listeners are modelled as the log of
 * responses they were notified of.
 *
 * The run loop is modelled corrected (each step asks for the time still
 * missing), as in `LocalSim`; `LocalSim.AsWrittenRunTimes` is the loop as
 * written.
 */
module SimServer {
  import opened Wrappers
  import opened Bits
  import ProbeList
  import opened SimDut
  import opened SimWaves
  import opened SimMessages
  import LocalSim

  class RequestServer {
    var servingId: nat
    var dut: Option<Dut>
    var probe: Option<Probe>
    var svPath: Option<string>
    var tempGenDir: Option<TempGenDir>
    var simulationTime: nat
    /** The result's total time and waves. */
    var totalTime: nat
    var waves: seq<Wave>
    var notified: seq<Response>

    /** The waves record exactly the times before the simulation time, which is the total time. */
    predicate Valid()
      reads this
    {
      WellFormed(waves, simulationTime) && totalTime == simulationTime
    }

    /** The simulation time is the loaded DUT's clock. */
    predicate Synced()
      reads this
    {
      dut.Some? ==> dut.value.time == simulationTime
    }

    /** new: nothing loaded, time 0, an empty result, no response sent. */
    constructor()
      ensures Valid() && Synced()
      ensures servingId == 0 && dut.None? && probe.None? && svPath.None? && tempGenDir.None?
      ensures simulationTime == 0 && waves == [] && notified == []
    {
      servingId := 0;
      dut := None;
      probe := None;
      svPath := None;
      tempGenDir := None;
      simulationTime := 0;
      totalTime := 0;
      waves := [];
      notified := [];
    }

    /** notify_listeners: every listener gets the payload tagged with the id being served. */
    method Notify(payload: Payload)
      modifies this
      ensures notified == old(notified) + [Response(servingId, payload)]
      ensures servingId == old(servingId) && dut == old(dut) && probe == old(probe) && svPath == old(svPath)
      ensures tempGenDir == old(tempGenDir) && simulationTime == old(simulationTime)
      ensures totalTime == old(totalTime) && waves == old(waves)
    {
      notified := notified + [Response(servingId, payload)];
    }

    /** release_resources: the DUT and its build are dropped. */
    method ReleaseResources()
      modifies this
      ensures dut.None? && tempGenDir.None?
      ensures servingId == old(servingId) && probe == old(probe) && svPath == old(svPath)
      ensures simulationTime == old(simulationTime) && totalTime == old(totalTime)
      ensures waves == old(waves) && notified == old(notified)
    {
      dut := None;
      tempGenDir := None;
    }

    /**
     * reload_simulation_result: the result and the simulation time back to
     * empty and 0, then one empty wave per signal the DUT reports.
     */
    method ReloadSimulationResult(host: Host) returns (r: Result<(), SimError>)
      modifies this
      ensures Valid() && simulationTime == 0
      ensures match DutQuery(host, dut)
        case Ok(signals) => r == Ok(()) && waves == WavesFrom(signals)
        case Err(e) => r == Err(e) && waves == []
      ensures servingId == old(servingId) && dut == old(dut) && probe == old(probe) && svPath == old(svPath)
      ensures tempGenDir == old(tempGenDir) && notified == old(notified)
    {
      waves := [];
      totalTime := 0;
      simulationTime := 0;
      var signals := DutQuery(host, dut);
      if signals.Err? {
        return Err(signals.error);
      }
      waves := WavesFrom(signals.value);
      r := Ok(());
    }

    /**
     * append_new_values_to_simulation_result_until: read every wave's
     * signal; if a read fails nothing changes; otherwise the total time
     * grows by the time up to `endTime` and each wave is extended by its new
     * value from the simulation time up to `endTime`. The simulation time
     * itself is left to the caller.
     */
    method AppendNewValuesUntil(host: Host, endTime: nat) returns (r: Result<(), SimError>)
      requires Valid() && simulationTime <= endTime
      modifies this
      ensures LocalSim.Extends(old(waves), waves)
      ensures simulationTime == old(simulationTime)
      ensures match AppendedUntil(host, dut, old(waves), old(simulationTime), endTime)
        case Err(e) => r == Err(e) && waves == old(waves) && totalTime == old(totalTime)
        case Ok(ws) => r == Ok(()) && waves == ws && totalTime == endTime && WellFormed(waves, endTime)
      ensures servingId == old(servingId) && dut == old(dut) && probe == old(probe) && svPath == old(svPath)
      ensures tempGenDir == old(tempGenDir) && notified == old(notified)
    {
      var appended := AppendUntil(host, dut, waves, simulationTime, endTime);
      LocalSim.AppendedUntilSpec(host, dut, waves, simulationTime, endTime);
      if appended.Err? {
        return Err(appended.error);
      }
      totalTime := totalTime + (endTime - simulationTime);
      waves := appended.value;
      r := Ok(());
    }

    /**
     * run, with each step asking for the time still missing: the simulation
     * time reaches exactly `duration` more, keeping everything recorded
     * before, provided the DUT's clock is the simulation time and its
     * library moves forward without passing what it is asked for.
     */
    method Run(host: Host, duration: nat) returns (r: Result<nat, SimError>)
      requires Valid() && Synced()
      requires dut.Some? ==> LocalSim.Advances(host, dut.value.libPath)
      modifies this
      ensures Valid()
      ensures r.Ok? ==> r.value == simulationTime == old(simulationTime) + duration && Synced()
      ensures LocalSim.Extends(old(waves), waves)
      ensures LocalSim.RunOutcome(host, old(dut), old(waves), old(simulationTime), old(simulationTime) + duration,
                                  if r.Ok? then Ok((dut, waves)) else Err(r.error))
      ensures servingId == old(servingId) && probe == old(probe) && svPath == old(svPath)
      ensures tempGenDir == old(tempGenDir) && notified == old(notified)
    {
      var target := simulationTime + duration;
      ghost var outcome := LocalSim.RunFrom(host, dut, waves, simulationTime, target);
      LocalSim.ExtendsRefl(waves);
      while simulationTime != target
        invariant Valid() && Synced() && old(simulationTime) <= simulationTime <= target
        invariant dut.Some? ==> LocalSim.Advances(host, dut.value.libPath)
        invariant LocalSim.Extends(old(waves), waves)
        invariant outcome == LocalSim.RunFrom(host, dut, waves, simulationTime, target)
        invariant servingId == old(servingId) && probe == old(probe) && svPath == old(svPath)
        invariant tempGenDir == old(tempGenDir) && notified == old(notified)
        decreases target - simulationTime
      {
        ghost var before := waves;
        var stepped := Step(host, target);
        LocalSim.ExtendsTrans(old(waves), before, waves);
        if stepped.Err? {
          return Err(stepped.error);
        }
      }
      assert outcome == Ok((dut, waves));
      r := Ok(simulationTime);
    }

    /**
     * One step of the run loop: the DUT is asked for the time still missing
     * to `target`, every wave is extended up to the time it reaches, and
     * the simulation time becomes that time. A failed read after the DUT
     * has moved leaves the simulation time behind the DUT's clock.
     */
    method Step(host: Host, target: nat) returns (r: Result<(), SimError>)
      requires Valid() && Synced() && simulationTime < target
      requires dut.Some? ==> LocalSim.Advances(host, dut.value.libPath)
      modifies this
      ensures Valid() && LocalSim.Extends(old(waves), waves)
      ensures dut.Some? ==> LocalSim.Advances(host, dut.value.libPath)
      ensures r.Ok? ==> old(simulationTime) < simulationTime <= target && Synced()
      ensures r.Ok? ==> AppendedUntil(host, dut, old(waves), old(simulationTime), simulationTime) == Ok(waves)
      ensures LocalSim.RunFrom(host, old(dut), old(waves), old(simulationTime), target)
              == if r.Ok? then LocalSim.RunFrom(host, dut, waves, simulationTime, target) else Err(r.error)
      ensures servingId == old(servingId) && probe == old(probe) && svPath == old(svPath)
      ensures tempGenDir == old(tempGenDir) && notified == old(notified)
    {
      LocalSim.ExtendsRefl(waves);
      var reached := DutRun(host, dut, target - simulationTime);
      assert LocalSim.RunFrom(host, dut, waves, simulationTime, target) == LocalSim.RunAfter(host, reached, waves, simulationTime, target);
      if reached.Err? {
        return Err(reached.error);
      }
      dut := Some(reached.value);
      var appended := AppendNewValuesUntil(host, reached.value.time);
      if appended.Err? {
        return Err(appended.error);
      }
      simulationTime := reached.value.time;
      r := Ok(());
    }

    /**
     * set_signal: write the value to the DUT's signal; the DUT records an
     * accepted write, and the clock and the result stay as they are.
     */
    method SetSignal(host: Host, signalName: string, value: BitVec) returns (r: Result<(), SimError>)
      modifies this
      ensures match DutSet(host, old(dut), signalName, value)
        case Ok(d) => r == Ok(()) && dut == Some(d) && d.time == old(dut).value.time
        case Err(e) => r == Err(e) && dut == old(dut)
      ensures servingId == old(servingId) && probe == old(probe) && svPath == old(svPath) && tempGenDir == old(tempGenDir)
      ensures simulationTime == old(simulationTime) && totalTime == old(totalTime) && waves == old(waves)
      ensures notified == old(notified)
    {
      var written := DutSet(host, dut, signalName, value);
      if written.Err? {
        return Err(written.error);
      }
      dut := Some(written.value);
      r := Ok(());
    }

    /**
     * modify_probe: without a probe, DutNotLoaded; otherwise the probe itself
     * takes every addition, then every removal, and keeps those made before
     * a failure.
     */
    method ModifyProbe(mods: ProbePointsModification, remove: (Probe, string) -> Result<Probe, ProbeList.ProbeError>)
      returns (r: Result<(), SimError>)
      modifies this
      ensures old(probe).None? ==> r == Err(DutNotLoaded) && probe.None?
      ensures old(probe).Some? ==>
        var (q, err) := Modified(old(probe).value, mods, remove);
        probe == Some(q) && r == if err.Some? then Err(err.value) else Ok(())
      ensures servingId == old(servingId) && dut == old(dut) && svPath == old(svPath) && tempGenDir == old(tempGenDir)
      ensures simulationTime == old(simulationTime) && totalTime == old(totalTime)
      ensures waves == old(waves) && notified == old(notified)
    {
      if probe.None? {
        return Err(DutNotLoaded);
      }
      ghost var p0 := probe.value;
      var i := 0;
      while i < |mods.toAdd|
        invariant probe.Some? && i <= |mods.toAdd|
        invariant AddAll(p0, mods.toAdd) == AddAll(probe.value, mods.toAdd[i..])
        invariant servingId == old(servingId) && dut == old(dut) && svPath == old(svPath) && tempGenDir == old(tempGenDir)
        invariant simulationTime == old(simulationTime) && totalTime == old(totalTime)
        invariant waves == old(waves) && notified == old(notified)
      {
        assert mods.toAdd[i..][1..] == mods.toAdd[i + 1..];
        var (after, err) := ProbeList.AddSpec(probe.value.root, probe.value.probed, mods.toAdd[i]);
        probe := Some(probe.value.(probed := after));
        if err.Some? {
          return Err(OombakProbe(err.value));
        }
        i := i + 1;
      }
      assert mods.toAdd[i..] == [];
      i := 0;
      while i < |mods.toRemove|
        invariant probe.Some? && i <= |mods.toRemove|
        invariant Modified(p0, mods, remove) == RemoveAll(probe.value, mods.toRemove[i..], remove)
        invariant servingId == old(servingId) && dut == old(dut) && svPath == old(svPath) && tempGenDir == old(tempGenDir)
        invariant simulationTime == old(simulationTime) && totalTime == old(totalTime)
        invariant waves == old(waves) && notified == old(notified)
      {
        assert mods.toRemove[i..][1..] == mods.toRemove[i + 1..];
        var removed := remove(probe.value, mods.toRemove[i]);
        if removed.Err? {
          return Err(OombakProbe(removed.error));
        }
        probe := Some(removed.value);
        i := i + 1;
      }
      assert mods.toRemove[i..] == [];
      r := Ok(());
    }

    /** rebuild_sv_path: build the design at the source path with the probe; both must be present. */
    function RebuildSvPath(host: Host): (r: Result<TempGenDir, SimError>)
      reads this
      ensures svPath.None? || probe.None? ==> r == Err(DutNotLoaded)
      ensures r.Ok? ==> svPath.Some? && probe.Some? && host.buildWithProbe(svPath.value, probe.value) == r
    {
      match (svPath, probe)
      case (Some(path), Some(p)) => host.buildWithProbe(path, p)
      case _ => Err(DutNotLoaded)
    }

    /**
     * load_dut: build the design at `svPath`; once built, the old DUT and
     * build are dropped, the new library loaded, the path and probe
     * replaced and the result reset to one empty wave per signal.
     */
    method LoadDut(host: Host, path: string) returns (r: Result<LoadedDut, SimError>)
      requires Valid()
      modifies this
      ensures Valid() && (old(Synced()) ==> Synced()) && (host.build(path).Ok? ==> Synced())
      ensures host.build(path).Err? ==> r == Err(host.build(path).error) && unchanged(this)
      ensures host.build(path).Ok? ==>
        && var (gen, p) := host.build(path).value;
        && tempGenDir == Some(gen)
        && (host.open(gen.libPath).Err? ==> r.Err? && dut.None? && svPath == old(svPath) && probe == old(probe))
        && (host.open(gen.libPath).Ok? ==>
              && dut == Some(Dut(gen.libPath, 0, [])) && svPath == Some(path) && probe == Some(p) && simulationTime == 0
              && (r.Ok? <==> DutQuery(host, dut).Ok?)
              && (r.Ok? ==> r.value == LoadedDutFrom(p) && waves == WavesFrom(DutQuery(host, dut).value)))
      ensures servingId == old(servingId) && notified == old(notified)
    {
      var built := host.build(path);
      if built.Err? {
        return Err(built.error);
      }
      var (gen, p) := built.value;
      ReleaseResources();
      tempGenDir := Some(gen);
      var opening := OpenDut(host, gen.libPath);
      if opening.Err? {
        return Err(opening.error);
      }
      dut := Some(opening.value);
      svPath := Some(path);
      probe := Some(p);
      var reset := ReloadSimulationResult(host);
      if reset.Err? {
        return Err(reset.error);
      }
      r := Ok(LoadedDutFrom(p));
    }

    /**
     * modify_probe_points: modify the probe in place, rebuild the design
     * from the same path with it, load the new library and reset the
     * result. The probe keeps its modification even when a later stage
     * fails, and the path never changes.
     */
    method ModifyProbePoints(host: Host, mods: ProbePointsModification) returns (r: Result<LoadedDut, SimError>)
      requires Valid()
      modifies this
      ensures Valid() && (old(Synced()) ==> Synced()) && (tempGenDir != old(tempGenDir) ==> Synced())
      ensures svPath == old(svPath)
      ensures old(probe).None? ==>
        && r == Err(DutNotLoaded) && probe.None? && dut == old(dut) && tempGenDir == old(tempGenDir)
        && simulationTime == old(simulationTime) && waves == old(waves)
      ensures old(probe).Some? ==> probe == Some(Modified(old(probe).value, mods, host.remove).0)
      ensures r.Ok? ==>
        && old(probe).Some? && old(svPath).Some?
        && var q := ModifiedProbe(old(probe).value, mods, host.remove);
        && q.Ok? && probe == Some(q.value) && r.value == LoadedDutFrom(q.value)
        && host.buildWithProbe(old(svPath).value, q.value).Ok?
        && tempGenDir == Some(host.buildWithProbe(old(svPath).value, q.value).value)
        && dut == Some(Dut(tempGenDir.value.libPath, 0, []))
        && simulationTime == 0 && DutQuery(host, dut).Ok? && waves == WavesFrom(DutQuery(host, dut).value)
      ensures servingId == old(servingId) && notified == old(notified)
    {
      var modified := ModifyProbe(mods, host.remove);
      if modified.Err? {
        return Err(modified.error);
      }
      var gen := RebuildSvPath(host);
      if gen.Err? {
        return Err(gen.error);
      }
      ReleaseResources();
      tempGenDir := Some(gen.value);
      var opening := OpenDut(host, gen.value.libPath);
      if opening.Err? {
        return Err(opening.error);
      }
      dut := Some(opening.value);
      var reset := ReloadSimulationResult(host);
      if reset.Err? {
        return Err(reset.error);
      }
      r := Ok(LoadedDutFrom(probe.value));
    }

    /** The last response the listeners were notified of. */
    function LastPayload(): Payload
      reads this
      requires notified != []
    {
      notified[|notified| - 1].payload
    }

    /** Exactly one response was added to those sent before, tagged with the id being served. */
    twostate predicate Answered()
      reads this
    {
      && |notified| == |old(notified)| + 1 && notified[..|old(notified)|] == old(notified)
      && notified[|old(notified)|].id == servingId
    }

    /**
     * What serve_run leaves: the new time, which is the old simulation time
     * plus the duration, or an error; the DUT and the waves are what the run
     * records (`RunFrom`), or its first failure is the error; everything
     * recorded before is kept, and the probe, path and build are untouched.
     */
    twostate predicate RunServed(host: Host, duration: nat)
      reads this
    {
      && Answered() && Valid() && LocalSim.Extends(old(waves), waves)
      && LocalSim.RunOutcome(host, old(dut), old(waves), old(simulationTime), old(simulationTime) + duration,
                             if LastPayload().Result? then Ok((dut, waves)) else Err(LastPayload().error))
      && probe == old(probe) && svPath == old(svPath) && tempGenDir == old(tempGenDir)
      && (LastPayload().Result? ==>
            && LastPayload() == Result(CurrentTime(old(simulationTime) + duration))
            && simulationTime == old(simulationTime) + duration && Synced())
    }

    /**
     * What serve_set_signal leaves: Empty exactly when the write succeeds,
     * else its error; an accepted write is recorded by the DUT, whose clock
     * stays, and nothing else changes.
     */
    twostate predicate SetSignalServed(host: Host, signalName: string, value: BitVec)
      reads this
    {
      && var written := DutSet(host, old(dut), signalName, value);
      && notified == old(notified) + [Response(servingId, if written.Ok? then Result(Empty) else Error(written.error))]
      && dut == (if written.Ok? then Some(written.value) else old(dut))
      && (written.Ok? ==> written.value.time == old(dut).value.time)
      && probe == old(probe) && svPath == old(svPath)
      && tempGenDir == old(tempGenDir) && simulationTime == old(simulationTime)
      && totalTime == old(totalTime) && waves == old(waves)
    }

    /**
     * What serve_load leaves: a failed build is its error and changes
     * nothing; the design is answered as loaded exactly when it builds,
     * opens and answers its query, and then the DUT, path, probe, build and
     * result are the new design's.
     */
    twostate predicate LoadServed(host: Host, path: string)
      reads this
    {
      && Answered() && Valid() && (old(Synced()) ==> Synced()) && (host.build(path).Ok? ==> Synced())
      && (host.build(path).Err? ==>
            && LastPayload() == Error(host.build(path).error)
            && dut == old(dut) && probe == old(probe) && svPath == old(svPath) && tempGenDir == old(tempGenDir)
            && simulationTime == old(simulationTime) && waves == old(waves))
      && (host.build(path).Ok? ==>
            && var (gen, p) := host.build(path).value;
            && tempGenDir == Some(gen)
            && (LastPayload().Result? <==> host.open(gen.libPath).Ok? && DutQuery(host, Some(Dut(gen.libPath, 0, []))).Ok?)
            && (LastPayload().Result? ==>
                  && LastPayload() == Result(Loaded(LoadedDutFrom(p)))
                  && dut == Some(Dut(gen.libPath, 0, [])) && svPath == Some(path) && probe == Some(p)
                  && simulationTime == 0 && waves == WavesFrom(DutQuery(host, dut).value)))
    }

    /**
     * What serve_modify_probe_points leaves: without a probe, DutNotLoaded
     * and nothing changes; otherwise the probe keeps its modification, and
     * the design is answered as loaded only once the modified probe is
     * rebuilt from the same path, opened and queried, the result then
     * starting over.
     */
    twostate predicate ModifyServed(host: Host, mods: ProbePointsModification)
      reads this
    {
      && Answered() && Valid() && (old(Synced()) ==> Synced()) && (LastPayload().Result? ==> Synced())
      && svPath == old(svPath)
      && (old(probe).None? ==>
            && LastPayload() == Error(DutNotLoaded) && probe.None? && dut == old(dut)
            && tempGenDir == old(tempGenDir) && simulationTime == old(simulationTime) && waves == old(waves))
      && (old(probe).Some? ==> probe == Some(Modified(old(probe).value, mods, host.remove).0))
      && (LastPayload().Result? ==>
            && old(probe).Some? && old(svPath).Some?
            && var q := ModifiedProbe(old(probe).value, mods, host.remove);
            && q.Ok? && probe == Some(q.value) && LastPayload() == Result(Loaded(LoadedDutFrom(q.value)))
            && host.buildWithProbe(old(svPath).value, q.value).Ok?
            && tempGenDir == Some(host.buildWithProbe(old(svPath).value, q.value).value)
            && dut == Some(Dut(tempGenDir.value.libPath, 0, []))
            && simulationTime == 0 && DutQuery(host, dut).Ok? && waves == WavesFrom(DutQuery(host, dut).value))
    }

    /** What serve_simulation_result leaves: the waves and total time are sent, and nothing changes. */
    twostate predicate SimulationResultServed()
      reads this
    {
      && notified == old(notified) + [Response(servingId, Result(Snapshot(waves, totalTime)))]
      && dut == old(dut) && probe == old(probe) && svPath == old(svPath)
      && tempGenDir == old(tempGenDir) && simulationTime == old(simulationTime)
      && totalTime == old(totalTime) && waves == old(waves)
    }

    /** serve_run */
    method ServeRun(host: Host, duration: nat)
      requires Valid() && Synced()
      requires dut.Some? ==> LocalSim.Advances(host, dut.value.libPath)
      modifies this
      ensures RunServed(host, duration) && servingId == old(servingId)
    {
      var reached := Run(host, duration);
      Notify(if reached.Ok? then Result(CurrentTime(reached.value)) else Error(reached.error));
    }

    /** serve_set_signal */
    method ServeSetSignal(host: Host, signalName: string, value: BitVec)
      modifies this
      ensures SetSignalServed(host, signalName, value) && servingId == old(servingId)
    {
      var written := SetSignal(host, signalName, value);
      Notify(if written.Ok? then Result(Empty) else Error(written.error));
    }

    /** serve_load */
    method ServeLoad(host: Host, path: string)
      requires Valid()
      modifies this
      ensures LoadServed(host, path) && servingId == old(servingId)
    {
      var loaded := LoadDut(host, path);
      Notify(if loaded.Ok? then Result(Loaded(loaded.value)) else Error(loaded.error));
    }

    /** serve_modify_probe_points */
    method ServeModifyProbePoints(host: Host, mods: ProbePointsModification)
      requires Valid()
      modifies this
      ensures ModifyServed(host, mods) && servingId == old(servingId)
    {
      var loaded := ModifyProbePoints(host, mods);
      Notify(if loaded.Ok? then Result(Loaded(loaded.value)) else Error(loaded.error));
    }

    /** serve_simulation_result */
    method ServeSimulationResult()
      modifies this
      ensures SimulationResultServed() && servingId == old(servingId)
    {
      Notify(Result(Snapshot(waves, totalTime)));
    }

    /**
     * One turn of the server loop: the request's id becomes the id being
     * served; Terminate drops the DUT and its build and stops the loop
     * without a response; any other request is served by its handler,
     * which answers it with exactly one response carrying its id.
     */
    method Serve(host: Host, request: Request) returns (stop: bool)
      requires Valid()
      requires request.payload.Run? ==> Synced() && (dut.Some? ==> LocalSim.Advances(host, dut.value.libPath))
      modifies this
      ensures Valid() && servingId == request.id
      ensures !request.payload.Run? && old(Synced()) ==> Synced()
      ensures stop <==> request.payload.Terminate?
      ensures stop ==>
        && notified == old(notified) && dut.None? && tempGenDir.None?
        && probe == old(probe) && svPath == old(svPath) && simulationTime == old(simulationTime) && waves == old(waves)
      ensures !stop ==>
        && |notified| == |old(notified)| + 1 && notified[..|old(notified)|] == old(notified)
        && notified[|old(notified)|].id == request.id
      ensures request.payload.Run? ==> RunServed(host, request.payload.duration)
      ensures request.payload.SetSignal? ==> SetSignalServed(host, request.payload.signalName, request.payload.value)
      ensures request.payload.Load? ==> LoadServed(host, request.payload.path)
      ensures request.payload.ModifyProbedPoints? ==> ModifyServed(host, request.payload.mods)
      ensures request.payload.GetSimulationResult? ==> SimulationResultServed()
    {
      servingId := request.id;
      match request.payload {
        case Run(duration) =>
          ServeRun(host, duration);
        case SetSignal(signalName, value) =>
          ServeSetSignal(host, signalName, value);
        case Load(path) =>
          ServeLoad(host, path);
        case ModifyProbedPoints(mods) =>
          ServeModifyProbePoints(host, mods);
        case GetSimulationResult =>
          ServeSimulationResult();
        case Terminate =>
          ReleaseResources();
          return true;
      }
      stop := false;
    }
  }
}
